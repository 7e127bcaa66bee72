/** The small values that examples are made of. */
module Samples {
  import opened Domain
  import opened Text
  import opened Tokens

  const TTL := Lifetimes(SECOND, 2 * SECOND)

  const CUSTOMER := User("u", "e", PasswordHash("p"), "", "", "", Active, [])

  const SHOUTED := "00000000-0000-4000-8000-00000000000A"

  lemma ShoutedParses()
    ensures UuidLayout(SHOUTED) && |SHOUTED| == 36
    ensures SHOUTED[0] == '0' && SHOUTED[35] == 'A'
  {
  }

  lemma CapitalIsNotCanonical(id: string)
    requires UuidLayout(id) && id[35] == 'A'
    ensures ParseUserId(id).Some? && ParseUserId(id) != Some(id)
  {
    hide UuidLayout;
    assert |id| == 36 by { LayoutLength(id); }
    assert ToLowerAscii(id)[35] == 'a';
  }

  /** A user id in its stored spelling. */
  lemma CanonicalId() returns (id: string)
    ensures ParseUserId(id) == Some(id) && TrimSpace(id) == id != ""
  {
    hide UuidLayout, TrimSpace;
    ShoutedParses();
    CapitalIsNotCanonical(SHOUTED);
    ParsedIdIsCanonical(SHOUTED);
    id := ParseUserId(SHOUTED).value;
  }

  lemma SomeRole() returns (role: string)
    ensures role == ToLower(TrimSpace("r")) != ""
  {
    assert Trimmed("r");
    TrimmedStays("r");
    role := ToLower("r");
    assert |role| == 1;
  }
}
