/** The string operations that normalize addresses, role names and user ids. */
module Text {
  import opened Domain

  /** The white space of the Unicode character database, as trimming uses it. */
  predicate IsSpace(c: char) {
    || '\t' <= c <= '\r' || c == ' '
    || c as int in {0x85, 0xA0, 0x1680, 0x2028, 0x2029, 0x202F, 0x205F, 0x3000}
    || 0x2000 <= c as int <= 0x200A
  }

  /** The 25 characters that the database calls white space. */
  lemma SpacesAre(c: char)
    ensures IsSpace(c) <==>
            c as int in [0x09, 0x0A, 0x0B, 0x0C, 0x0D, 0x20, 0x85, 0xA0, 0x1680, 0x2000, 0x2001, 0x2002, 0x2003, 0x2004,
                         0x2005, 0x2006, 0x2007, 0x2008, 0x2009, 0x200A, 0x2028, 0x2029, 0x202F, 0x205F, 0x3000]
  {
  }

  function TrimLeft(s: string): string {
    if s != "" && IsSpace(s[0]) then TrimLeft(s[1..]) else s
  }

  function TrimRight(s: string): string {
    if s != "" && IsSpace(s[|s| - 1]) then TrimRight(s[..|s| - 1]) else s
  }

  function TrimSpace(s: string): string {
    TrimRight(TrimLeft(s))
  }

  function LowerAscii(c: char): char {
    if 'A' <= c <= 'Z' then (c as int + 32) as char else c
  }

  /** The 26 capital letters go to their small ones, and every other character stays. */
  lemma LowerAsciiMaps(c: char)
    ensures forall i :: 0 <= i < 26 && c == "ABCDEFGHIJKLMNOPQRSTUVWXYZ"[i] ==>
              LowerAscii(c) == "abcdefghijklmnopqrstuvwxyz"[i]
    ensures c !in "ABCDEFGHIJKLMNOPQRSTUVWXYZ" ==> LowerAscii(c) == c
  {
    assert forall i :: 0 <= i < 26 ==> "ABCDEFGHIJKLMNOPQRSTUVWXYZ"[i] as int == 'A' as int + i;
    assert forall i :: 0 <= i < 26 ==> "abcdefghijklmnopqrstuvwxyz"[i] as int == 'a' as int + i;
    if 'A' <= c <= 'Z' {
      assert c == "ABCDEFGHIJKLMNOPQRSTUVWXYZ"[c as int - 'A' as int];
    }
  }

  function ToLowerAscii(s: string): string {
    seq(|s|, i requires 0 <= i < |s| => LowerAscii(s[i]))
  }

  /** What the lower-case mapping of the Unicode character database provides: the ASCII
      letters, nothing left to lower, and no letter becomes white space. */
  ghost predicate IsLowerCasing(f: char -> char) {
    && (forall c :: 0 <= c as int < 128 ==> f(c) == LowerAscii(c))
    && (forall c :: f(f(c)) == f(c))
    && (forall c :: IsSpace(f(c)) ==> IsSpace(c))
  }

  type LowerCasing = f: char -> char | IsLowerCasing(f) witness LowerAscii

  /** Any mapping of that kind: no result depends on which one it is. */
  const Lower: LowerCasing

  function ToLower(s: string): string {
    seq(|s|, i requires 0 <= i < |s| => Lower(s[i]))
  }

  function NormalizeEmail(email: string): string {
    ToLower(TrimSpace(email))
  }

  predicate Trimmed(s: string) {
    s != "" ==> !IsSpace(s[0]) && !IsSpace(s[|s| - 1])
  }

  lemma {:induction false} TrimRightTrims(s: string)
    requires s != "" ==> !IsSpace(s[0])
    ensures Trimmed(TrimRight(s))
  {
    if s != "" && IsSpace(s[|s| - 1]) {
      assert s[..|s| - 1] != "" ==> s[..|s| - 1][0] == s[0];
      TrimRightTrims(s[..|s| - 1]);
    }
  }

  lemma {:induction false} TrimLeftTrims(s: string)
    ensures TrimLeft(s) != "" ==> !IsSpace(TrimLeft(s)[0])
  {
    if s != "" && IsSpace(s[0]) {
      TrimLeftTrims(s[1..]);
    }
  }

  /** Normalizing twice is normalizing once, and a normalized address is what it
      looks like: trimmed and in lower case. */
  lemma NormalizeEmailIsStable(email: string)
    ensures Trimmed(NormalizeEmail(email))
    ensures NormalizeEmail(NormalizeEmail(email)) == NormalizeEmail(email)
    ensures |NormalizeEmail(email)| == |TrimSpace(email)|
    ensures forall i :: 0 <= i < |TrimSpace(email)| ==> NormalizeEmail(email)[i] == Lower(TrimSpace(email)[i])
  {
    TrimLeftTrims(email);
    TrimRightTrims(TrimLeft(email));
    var e := NormalizeEmail(email);
    assert Trimmed(e);
    assert TrimSpace(e) == e;
    assert ToLower(e) == e;
  }

  predicate AllSpace(s: string) {
    forall i :: 0 <= i < |s| ==> IsSpace(s[i])
  }

  /** Trimming takes white space from both ends, all of it and nothing else. */
  lemma TrimSpaceTakesEnds(s: string) returns (lead: string, trail: string)
    ensures s == lead + TrimSpace(s) + trail && AllSpace(lead) && AllSpace(trail) && Trimmed(TrimSpace(s))
  {
    var t;
    lead := TrimLeftSplits(s);
    t := TrimLeft(s);
    trail := TrimRightSplits(t);
    TrimLeftTrims(s);
    TrimRightTrims(t);
    assert s == lead + (TrimRight(t) + trail);
  }

  lemma {:induction false} TrimLeftSplits(s: string) returns (lead: string)
    ensures s == lead + TrimLeft(s) && AllSpace(lead)
  {
    lead := "";
    if s != "" && IsSpace(s[0]) {
      var rest := TrimLeftSplits(s[1..]);
      lead := [s[0]] + rest;
      assert s == [s[0]] + s[1..];
    }
  }

  lemma {:induction false} TrimRightSplits(s: string) returns (trail: string)
    ensures s == TrimRight(s) + trail && AllSpace(trail)
  {
    trail := "";
    if s != "" && IsSpace(s[|s| - 1]) {
      var rest := TrimRightSplits(s[..|s| - 1]);
      trail := rest + [s[|s| - 1]];
      assert s == s[..|s| - 1] + [s[|s| - 1]];
    }
  }

  // ---- lengths ----

  /** The bytes that UTF-8 takes for a character (section 3 of RFC 3629). */
  function Utf8Width(c: char): nat {
    if c as int < 0x80 then 1 else if c as int < 0x800 then 2 else if c as int < 0x1_0000 then 3 else 4
  }

  function TwoTo(n: nat): nat {
    if n == 0 then 1 else 2 * TwoTo(n - 1)
  }

  /** The bits that a form of so many bytes carries: seven in a single byte, else what the
      lead byte has left and six in each byte that follows. */
  function FormBits(width: nat): nat
    requires 1 <= width <= 4
  {
    if width == 1 then 7 else (7 - width) + 6 * (width - 1)
  }

  /** A character takes the shortest form that carries it. */
  lemma WidthIsShortest(c: char)
    ensures 1 <= Utf8Width(c) <= 4 && c as int < TwoTo(FormBits(Utf8Width(c)))
    ensures forall w :: 1 <= w < Utf8Width(c) ==> TwoTo(FormBits(w)) <= c as int
  {
    assert TwoTo(7) == 0x80;
    assert TwoTo(11) == 0x10 * TwoTo(7);
    assert TwoTo(16) == 0x20 * TwoTo(11);
    assert TwoTo(21) == 0x20 * TwoTo(16);
    assert FormBits(2) == 11 && FormBits(3) == 16 && FormBits(4) == 21;
  }

  /** The length of a string in bytes. */
  function Utf8Length(s: string): nat {
    if s == "" then 0 else Utf8Width(s[0]) + Utf8Length(s[1..])
  }

  predicate IsAscii(s: string) {
    forall i :: 0 <= i < |s| ==> s[i] as int < 0x80
  }

  /** Bytes count characters exactly for ASCII text, and at most four of them make one. */
  lemma {:induction false} BytesAndCharacters(s: string)
    ensures |s| <= Utf8Length(s) <= 4 * |s|
    ensures Utf8Length(s) == |s| <==> IsAscii(s)
  {
    if s != "" {
      BytesAndCharacters(s[1..]);
      assert IsAscii(s) <==> s[0] as int < 0x80 && IsAscii(s[1..]) by {
        assert s == [s[0]] + s[1..];
      }
    }
  }

  /** Four characters can be eight bytes, and nineteen can be more than 72. */
  lemma BytesDiffer() returns (short: string, long: string)
    ensures |short| == 4 && Utf8Length(short) == 8
    ensures |long| == 19 && Utf8Length(long) > 72
  {
    short := Repeat('\U{00E9}', 4);
    long := Repeat('\U{1F511}', 19);
  }

  /** A character n times over. */
  lemma {:induction false} Repeat(c: char, n: nat) returns (s: string)
    ensures |s| == n && Utf8Length(s) == n * Utf8Width(c)
  {
    s := "";
    if n > 0 {
      var rest := Repeat(c, n - 1);
      s := [c] + rest;
      assert s[1..] == rest;
    }
  }

  // ---- user ids ----

  predicate IsHex(c: char) {
    '0' <= c <= '9' || 'a' <= c <= 'f' || 'A' <= c <= 'F'
  }

  /** The 36-character layout of section 4 of RFC 9562. */
  predicate UuidLayout(s: string) {
    && |s| == 36
    && (forall i :: 0 <= i < 36 ==> if i in {8, 13, 18, 23} then s[i] == '-' else IsHex(s[i]))
  }

  /** The ten digits and the letters a to f, small or capital. */
  lemma HexIs(c: char)
    ensures IsHex(c) <==>
            c in ['0', '1', '2', '3', '4', '5', '6', '7', '8', '9', 'a', 'b', 'c', 'd', 'e', 'f',
                  'A', 'B', 'C', 'D', 'E', 'F']
  {
  }

  predicate HexGroup(s: string, n: nat) {
    |s| == n && forall i :: 0 <= i < n ==> IsHex(s[i])
  }

  /** Five groups of 8, 4, 4, 4 and 12 hexadecimal digits with a hyphen in between. */
  lemma LayoutIsGroups(s: string)
    ensures UuidLayout(s) <==>
            exists a, b, c, d, e ::
              && HexGroup(a, 8) && HexGroup(b, 4) && HexGroup(c, 4) && HexGroup(d, 4) && HexGroup(e, 12)
              && s == a + "-" + b + "-" + c + "-" + d + "-" + e
  {
    hide IsHex;
    if UuidLayout(s) {
      assert s == s[..8] + "-" + s[9..13] + "-" + s[14..18] + "-" + s[19..23] + "-" + s[24..];
      assert HexGroup(s[..8], 8) && HexGroup(s[9..13], 4) && HexGroup(s[14..18], 4) && HexGroup(s[19..23], 4)
             && HexGroup(s[24..], 12);
    }
  }

  /** The accepted spellings: plain, with the URN prefix, in between two bytes of any kind,
      and without hyphens. */
  function UuidDigits(s: string): string {
    if |s| == 45 && ToLowerAscii(s[..9]) == "urn:uuid:" then s[9..]
    else if |s| == 38 && Utf8Width(s[0]) == 1 && Utf8Width(s[37]) == 1 then s[1..37]
    else if |s| == 32 then s[..8] + "-" + s[8..12] + "-" + s[12..16] + "-" + s[16..20] + "-" + s[20..]
    else s
  }

  /** Parsing a user id gives the stored id, which is in lower case. */
  function ParseUserId(s: string): Option<string> {
    if UuidLayout(UuidDigits(s)) then Some(ToLowerAscii(UuidDigits(s))) else None
  }

  /** A stored id is its own only canonical spelling. */
  lemma ParsedIdIsCanonical(s: string)
    requires ParseUserId(s).Some?
    ensures ParseUserId(ParseUserId(s).value) == ParseUserId(s)
    ensures TrimSpace(ParseUserId(s).value) == ParseUserId(s).value != ""
  {
    var t := UuidDigits(s);
    var c := ToLowerAscii(t);
    assert UuidLayout(c) by {
      forall i | 0 <= i < 36 ensures if i in {8, 13, 18, 23} then c[i] == '-' else IsHex(c[i]) {
        assert c[i] == LowerAscii(t[i]);
      }
    }
    assert ToLowerAscii(c) == c;
    assert IsHex(c[0]) && IsHex(c[35]);
  }

  lemma AsciiParts(a: string, b: string)
    ensures IsAscii(a + b) <==> IsAscii(a) && IsAscii(b)
  {
    if IsAscii(a + b) {
      assert forall i :: 0 <= i < |a| ==> (a + b)[i] == a[i];
      assert forall i :: 0 <= i < |b| ==> (a + b)[|a| + i] == b[i];
    }
  }

  lemma LowerAsciiIsAscii(s: string)
    requires IsAscii(ToLowerAscii(s))
    ensures IsAscii(s)
  {
    forall i | 0 <= i < |s| ensures s[i] as int < 0x80 {
      assert ToLowerAscii(s)[i] == LowerAscii(s[i]);
    }
  }

  lemma LayoutIsAscii(s: string)
    requires UuidLayout(s)
    ensures IsAscii(s)
  {
  }

  /** Every accepted spelling is ASCII text, so that its length in bytes, by which the four
      forms are told apart, is its number of characters. */
  lemma AcceptedIsAscii(s: string)
    requires ParseUserId(s).Some?
    ensures IsAscii(s) && Utf8Length(s) == |s| && Utf8Length(s) in {32, 36, 38, 45}
  {
    hide UuidLayout, ToLowerAscii, IsAscii;
    var d := UuidDigits(s);
    LayoutIsAscii(d);
    BytesAndCharacters(s);
    assert |d| == 36 by { LayoutLength(d); }
    if |s| == 45 && ToLowerAscii(s[..9]) == "urn:uuid:" {
      UrnIsAscii(s);
    } else if |s| == 38 && Utf8Width(s[0]) == 1 && Utf8Width(s[37]) == 1 {
      BracketedIsAscii(s);
    } else if |s| == 32 {
      PartsOfPlain(s);
    }
  }

  lemma UrnIsAscii(s: string)
    requires |s| == 45 && ToLowerAscii(s[..9]) == "urn:uuid:" && IsAscii(s[9..])
    ensures IsAscii(s)
  {
    hide ToLowerAscii, IsAscii;
    assert IsAscii("urn:uuid:") by { PrefixIsAscii(); }
    LowerAsciiIsAscii(s[..9]);
    AsciiParts(s[..9], s[9..]);
    assert s == s[..9] + s[9..];
  }

  lemma BracketedIsAscii(s: string)
    requires |s| == 38 && Utf8Width(s[0]) == 1 && Utf8Width(s[37]) == 1 && IsAscii(s[1..37])
    ensures IsAscii(s)
  {
    forall i | 0 < i < 37 ensures s[i] as int < 0x80 {
      assert s[i] == s[1..37][i - 1];
    }
  }

  lemma LayoutLength(s: string)
    requires UuidLayout(s)
    ensures |s| == 36
  {
  }

  lemma PrefixIsAscii()
    ensures IsAscii("urn:uuid:")
  {
  }

  /** Without the hyphens no other character is gone. */
  lemma PartsOfPlain(s: string)
    requires |s| == 32 && IsAscii(UuidDigits(s))
    ensures IsAscii(s)
  {
    var d := UuidDigits(s);
    forall i | 0 <= i < 32 ensures s[i] as int < 0x80 {
      var hyphens := if i < 8 then 0 else if i < 12 then 1 else if i < 16 then 2 else if i < 20 then 3 else 4;
      assert d[i + hyphens] == s[i];
    }
  }

  lemma TrimmedStays(s: string)
    requires Trimmed(s)
    ensures TrimSpace(s) == s
  {
  }

  // ---- the spellings of an id ----

  /** The digits in their layout, in any case: alone, behind the URN prefix, in between two
      bytes, or without their hyphens. */
  ghost predicate Spells(s: string, digits: string)
    requires |digits| == 36
  {
    || s == digits
    || (exists prefix :: ToLowerAscii(prefix) == "urn:uuid:" && s == prefix + digits)
    || (exists a, b :: Utf8Width(a) == 1 && Utf8Width(b) == 1 && s == [a] + digits + [b])
    || s == digits[..8] + digits[9..13] + digits[14..18] + digits[19..23] + digits[24..]
  }

  /** An id is accepted for a stored one exactly when it spells its digits. */
  lemma ParsesIffSpells(s: string, id: string)
    ensures ParseUserId(s) == Some(id) <==>
            exists digits :: UuidLayout(digits) && ToLowerAscii(digits) == id && Spells(s, digits)
  {
    if ParseUserId(s) == Some(id) {
      ParsedSpells(s);
    }
    forall digits | UuidLayout(digits) && Spells(s, digits) ensures ParseUserId(s) == Some(ToLowerAscii(digits)) {
      SpellingParses(s, digits);
    }
  }

  lemma ParsedSpells(s: string)
    requires UuidLayout(UuidDigits(s))
    ensures Spells(s, UuidDigits(s))
  {
    var d := UuidDigits(s);
    assert |d| == 36 by { LayoutLength(d); }
    hide UuidLayout, ToLowerAscii, Utf8Width;
    if |s| == 45 && ToLowerAscii(s[..9]) == "urn:uuid:" {
      assert s == s[..9] + d;
    } else if |s| == 38 && Utf8Width(s[0]) == 1 && Utf8Width(s[37]) == 1 {
      assert s == [s[0]] + d + [s[37]];
    } else if |s| == 32 {
      assert d[..8] == s[..8] && d[9..13] == s[8..12] && d[14..18] == s[12..16] && d[19..23] == s[16..20]
             && d[24..] == s[20..];
      assert s == s[..8] + s[8..12] + s[12..16] + s[16..20] + s[20..];
    }
  }

  lemma SpellingParses(s: string, digits: string)
    requires UuidLayout(digits) && Spells(s, digits)
    ensures UuidDigits(s) == digits
  {
    HyphensStand(digits);
    hide UuidLayout, Utf8Width;
    if s != digits {
      if prefix :| ToLowerAscii(prefix) == "urn:uuid:" && s == prefix + digits {
        assert |prefix| == |ToLowerAscii(prefix)| == 9;
        assert s[..9] == prefix && s[9..] == digits;
      } else if a, b :| Utf8Width(a) == 1 && Utf8Width(b) == 1 && s == [a] + digits + [b] {
        assert s[1..37] == digits;
      } else {
        PlainParses(s, digits);
      }
    }
  }

  lemma PlainParses(s: string, digits: string)
    requires |digits| == 36 && digits[8] == digits[13] == digits[18] == digits[23] == '-'
    requires s == digits[..8] + digits[9..13] + digits[14..18] + digits[19..23] + digits[24..]
    ensures UuidDigits(s) == digits
  {
    assert s[..8] == digits[..8] && s[8..12] == digits[9..13] && s[12..16] == digits[14..18]
           && s[16..20] == digits[19..23] && s[20..] == digits[24..];
    assert digits == digits[..8] + [digits[8]] + digits[9..13] + [digits[13]] + digits[14..18] + [digits[18]]
                     + digits[19..23] + [digits[23]] + digits[24..];
  }

  lemma HyphensStand(digits: string)
    requires UuidLayout(digits)
    ensures |digits| == 36 && digits[8] == digits[13] == digits[18] == digits[23] == '-'
  {
  }
}
