/**
 * The pieces of Python's text handling that the deployment scripts rely on:
 * `str.startswith`, `str.strip()`, `':' in s` / `s.split(':', 1)` and the
 * built-in `int(s)` on a string (base 10).
 */
module PyText {
  import opened Outcomes

  /** Python's `str.isspace()` on one character: the characters that
      `str.strip()` removes. */
  predicate IsSpace(c: char) {
    ('\t' <= c <= '\r') || ('\U{1C}' <= c <= ' ') || c == '\U{85}' || c == '\U{A0}'
    || c == '\U{1680}' || ('\U{2000}' <= c <= '\U{200A}') || c == '\U{2028}' || c == '\U{2029}'
    || c == '\U{202F}' || c == '\U{205F}' || c == '\U{3000}'
  }

  /** The ASCII information separators FS, GS, RS and US. */
  predicate IsInfoSeparator(c: char) {
    '\U{1C}' <= c <= '\U{1F}'
  }

  /** The whitespace `int()` skips around a literal: non-ASCII whitespace
      becomes a space before parsing and is skipped with it, but of the
      ASCII characters only TAB to CR and SPACE are, so the information
      separators, which `str.isspace()` accepts, stay and are rejected. */
  predicate IsIntSpace(c: char) {
    IsSpace(c) && !IsInfoSeparator(c)
  }

  /** Which whitespace a trim removes: `str.strip()`'s or `int()`'s. */
  datatype Blanks = StripBlanks | IntBlanks

  predicate IsBlank(b: Blanks, c: char) {
    match b
    case StripBlanks => IsSpace(c)
    case IntBlanks => IsIntSpace(c)
  }

  predicate AllBlank(b: Blanks, s: string) {
    forall i :: 0 <= i < |s| ==> IsBlank(b, s[i])
  }

  /** `s.isspace() or s == ''` */
  predicate AllSpace(s: string) {
    AllBlank(StripBlanks, s)
  }

  /** `s.startswith(p)` */
  predicate StartsWith(s: string, p: string) {
    |p| <= |s| && s[..|p|] == p
  }

  /** Drops leading whitespace. */
  function TrimLeft(b: Blanks, s: string): (r: string)
    ensures |r| <= |s| && r == s[|s| - |r|..]
    decreases |s|
  {
    if s != [] && IsBlank(b, s[0]) then TrimLeft(b, s[1..]) else s
  }

  lemma {:induction false} TrimLeftSpec(b: Blanks, s: string)
    ensures forall i :: 0 <= i < |s| - |TrimLeft(b, s)| ==> IsBlank(b, s[i])
    ensures TrimLeft(b, s) != [] ==> !IsBlank(b, TrimLeft(b, s)[0])
    decreases |s|
  {
    if s != [] && IsBlank(b, s[0]) {
      TrimLeftSpec(b, s[1..]);
      assert forall i :: 1 <= i < |s| ==> s[i] == s[1..][i - 1];
    }
  }

  /** Drops trailing whitespace. */
  function TrimRight(b: Blanks, s: string): (r: string)
    ensures |r| <= |s| && r == s[..|r|]
    decreases |s|
  {
    if s != [] && IsBlank(b, s[|s| - 1]) then TrimRight(b, s[..|s| - 1]) else s
  }

  lemma {:induction false} TrimRightSpec(b: Blanks, s: string)
    ensures forall i :: |TrimRight(b, s)| <= i < |s| ==> IsBlank(b, s[i])
    ensures TrimRight(b, s) != [] ==> !IsBlank(b, TrimRight(b, s)[|TrimRight(b, s)| - 1])
    decreases |s|
  {
    if s != [] && IsBlank(b, s[|s| - 1]) {
      TrimRightSpec(b, s[..|s| - 1]);
    }
  }

  /** How many leading characters a trim removes. */
  function Lead(b: Blanks, s: string): nat {
    |s| - |TrimLeft(b, s)|
  }

  /** Drops whitespace at both ends. */
  function Trim(b: Blanks, s: string): string {
    TrimRight(b, TrimLeft(b, s))
  }

  /** `s.strip()` */
  function Strip(s: string): string {
    Trim(StripBlanks, s)
  }

  /** A trim keeps the middle slice of `s` that neither begins nor ends
      with whitespace, everything cut away is whitespace, and the result
      is empty exactly when `s` is all whitespace. */
  lemma TrimSpec(b: Blanks, s: string)
    ensures Lead(b, s) + |Trim(b, s)| <= |s| && Trim(b, s) == s[Lead(b, s)..Lead(b, s) + |Trim(b, s)|]
    ensures forall i :: 0 <= i < Lead(b, s) ==> IsBlank(b, s[i])
    ensures forall i :: Lead(b, s) + |Trim(b, s)| <= i < |s| ==> IsBlank(b, s[i])
    ensures Trim(b, s) != [] ==> !IsBlank(b, Trim(b, s)[0]) && !IsBlank(b, Trim(b, s)[|Trim(b, s)| - 1])
    ensures Trim(b, s) == [] <==> AllBlank(b, s)
  {
    TrimSlice(b, s);
    TrimTail(b, s);
    TrimLeftSpec(b, s);
    TrimEnds(b, s);
    TrimEmpty(b, s);
  }

  lemma TrimSlice(b: Blanks, s: string)
    ensures Lead(b, s) + |Trim(b, s)| <= |s| && Trim(b, s) == s[Lead(b, s)..Lead(b, s) + |Trim(b, s)|]
  {
    var l := TrimLeft(b, s);
    SliceOfSuffix(s, |s| - |l|, |TrimRight(b, l)|);
  }

  lemma SliceOfSuffix<T>(s: seq<T>, k: nat, n: nat)
    requires k + n <= |s|
    ensures s[k..][..n] == s[k..k + n]
  {
  }

  lemma TrimTail(b: Blanks, s: string)
    ensures forall i :: Lead(b, s) + |Trim(b, s)| <= i < |s| ==> IsBlank(b, s[i])
  {
    var l := TrimLeft(b, s);
    TrimRightSpec(b, l);
    BlanksOfSuffix(b, s, |s| - |l|, |TrimRight(b, l)|);
  }

  lemma BlanksOfSuffix(b: Blanks, s: string, k: nat, n: nat)
    requires k + n <= |s|
    requires forall i :: n <= i < |s| - k ==> IsBlank(b, s[k..][i])
    ensures forall i :: k + n <= i < |s| ==> IsBlank(b, s[i])
  {
    forall i | k + n <= i < |s| ensures IsBlank(b, s[i]) {
      assert s[i] == s[k..][i - k];
    }
  }

  lemma TrimEnds(b: Blanks, s: string)
    ensures Trim(b, s) != [] ==> !IsBlank(b, Trim(b, s)[0]) && !IsBlank(b, Trim(b, s)[|Trim(b, s)| - 1])
  {
    var l, r := TrimLeft(b, s), Trim(b, s);
    TrimLeftSpec(b, s);
    TrimRightSpec(b, l);
    if r != [] {
      assert r[0] == l[0];
    }
  }

  lemma TrimEmpty(b: Blanks, s: string)
    ensures Trim(b, s) == [] <==> AllBlank(b, s)
  {
    var r, k := Trim(b, s), Lead(b, s);
    TrimSlice(b, s);
    TrimTail(b, s);
    TrimLeftSpec(b, s);
    TrimEnds(b, s);
    if r != [] {
      assert s[k] == r[0];
    }
  }

  /** Index of the first occurrence of `c` in `s`, as `s.find(c)` gives
      it; `None` when `c in s` is false. */
  function FindChar(s: string, c: char): (r: Option<nat>)
    ensures r.None? <==> c !in s
    ensures r.Some? ==> r.value < |s| && s[r.value] == c && c !in s[..r.value]
  {
    if s == [] then None
    else if s[0] == c then Some(0)
    else match FindChar(s[1..], c)
      case None => None
      case Some(i) =>
        assert s[..i + 1] == [s[0]] + s[1..][..i];
        Some(i + 1)
  }

  predicate IsDigit(c: char) {
    '0' <= c <= '9'
  }

  function DigitValue(c: char): (d: nat)
    requires IsDigit(c)
    ensures d < 10
  {
    (c - '0') as nat
  }

  function DigitChar(d: nat): (c: char)
    requires d < 10
    ensures IsDigit(c) && DigitValue(c) == d
  {
    ('0' as int + d) as char
  }

  /** The body of a base-10 literal that `int()` accepts: ASCII digits,
      optionally grouped by single underscores, starting and ending with
      a digit. */
  predicate IsDigitGroups(s: string) {
    |s| > 0 && IsDigit(s[0]) && IsDigit(s[|s| - 1])
    && (forall i :: 0 <= i < |s| ==> IsDigit(s[i]) || s[i] == '_')
    && (forall i :: 0 <= i < |s| - 1 ==> !(s[i] == '_' && s[i + 1] == '_'))
  }

  /** The number the digits of `s` spell, underscores skipped. */
  function GroupsValue(s: string): nat
    requires forall i :: 0 <= i < |s| ==> IsDigit(s[i]) || s[i] == '_'
    decreases |s|
  {
    if s == [] then 0
    else if s[|s| - 1] == '_' then GroupsValue(s[..|s| - 1])
    else GroupsValue(s[..|s| - 1]) * 10 + DigitValue(s[|s| - 1])
  }

  predicate IsSign(c: char) {
    c == '+' || c == '-'
  }

  /** Characters that may occur in a string `int()` accepts. */
  predicate IsLiteralChar(c: char) {
    IsDigit(c) || c == '_' || IsSign(c) || IsIntSpace(c)
  }

  /** Python's `int(s)` for a string `s` in base 10: the whitespace it
      skips is ignored at both ends, then one optional sign, then digit
      groups. `None` stands for the `ValueError` it raises otherwise. */
  function ParseInt(s: string): Option<int> {
    ParseLiteral(Trim(IntBlanks, s))
  }

  /** `int()` on a literal that has already lost its surrounding
      whitespace. */
  function ParseLiteral(t: string): Option<int> {
    var signed := |t| > 0 && IsSign(t[0]);
    var body := if signed then t[1..] else t;
    if !IsDigitGroups(body) then None
    else
      var v: int := GroupsValue(body);
      Some(if signed && t[0] == '-' then -v else v)
  }

  lemma LiteralChars(t: string)
    requires ParseLiteral(t).Some?
    ensures t != [] && forall i :: 0 <= i < |t| ==> IsLiteralChar(t[i])
  {
    var signed := |t| > 0 && IsSign(t[0]);
    var body := if signed then t[1..] else t;
    forall i | 0 <= i < |t| ensures IsLiteralChar(t[i]) {
      if signed && i > 0 { assert t[i] == body[i - 1]; }
    }
  }

  /** An unsigned literal is read as the number its digits spell. */
  lemma ParseUnsigned(t: string)
    requires IsDigitGroups(t)
    ensures ParseLiteral(t) == Some(GroupsValue(t))
  {
  }

  /** A signed literal is read as the number its digits spell, negated
      after a minus. */
  lemma ParseSigned(c: char, t: string)
    requires IsSign(c) && IsDigitGroups(t)
    ensures ParseLiteral([c] + t) == Some(if c == '-' then 0 - GroupsValue(t) else GroupsValue(t))
  {
    assert ([c] + t)[1..] == t;
  }

  /** Whitespace around a run of literal characters keeps every
      character a literal character. */
  lemma CharsAroundSlice(s: string, k: nat, t: string)
    requires k + |t| <= |s| && t == s[k..k + |t|]
    requires forall i :: 0 <= i < k ==> IsIntSpace(s[i])
    requires forall i :: k + |t| <= i < |s| ==> IsIntSpace(s[i])
    requires forall i :: 0 <= i < |t| ==> IsLiteralChar(t[i])
    ensures forall i :: 0 <= i < |s| ==> IsLiteralChar(s[i])
  {
    forall i | 0 <= i < |s| ensures IsLiteralChar(s[i]) {
      if k <= i < k + |t| {
        assert t[i - k] == s[i];
      }
    }
  }

  /** What `int()` accepts holds a character it does not skip, and
      nothing but the whitespace it skips, signs, digits and underscores. */
  lemma ParsedChars(s: string)
    ensures ParseInt(s).Some? ==> forall i :: 0 <= i < |s| ==> IsLiteralChar(s[i])
    ensures ParseInt(s).Some? ==> !AllBlank(IntBlanks, s)
  {
    if ParseInt(s).Some? {
      var t := Trim(IntBlanks, s);
      TrimSpec(IntBlanks, s);
      LiteralChars(t);
      CharsAroundSlice(s, Lead(IntBlanks, s), t);
    }
  }

  /** A colon or a slash anywhere makes `int()` raise. */
  lemma RejectsSeparator(s: string, k: nat)
    requires k < |s| && (s[k] == ':' || s[k] == '/')
    ensures ParseInt(s) == None
  {
    ParsedChars(s);
    assert !IsLiteralChar(s[k]);
  }

  /** An information separator anywhere makes `int()` raise:
      `int('\x1c7687')` fails where `int(' 7687')` gives 7687. */
  lemma RejectsInfoSeparator(s: string, k: nat)
    requires k < |s| && IsInfoSeparator(s[k])
    ensures ParseInt(s) == None
  {
    ParsedChars(s);
    assert !IsLiteralChar(s[k]);
  }

  /** `str.strip()`, unlike `int()`, drops a leading information
      separator. */
  lemma StripDropsInfoSeparator(s: string)
    requires s != [] && IsInfoSeparator(s[0])
    ensures Strip(s) == Strip(s[1..])
  {
    assert IsSpace(s[0]);
  }

  /** The decimal spelling Python's `str(n)` gives a natural number. */
  function DecimalString(n: nat): (s: string)
    ensures |s| > 0
    ensures forall i :: 0 <= i < |s| ==> IsDigit(s[i])
    decreases n
  {
    if n < 10 then [DigitChar(n)] else DecimalString(n / 10) + [DigitChar(n % 10)]
  }

  lemma {:induction false} DecimalValue(n: nat)
    ensures GroupsValue(DecimalString(n)) == n
    decreases n
  {
    var s := DecimalString(n);
    if n < 10 {
      assert s[..0] == [];
    } else {
      DecimalValue(n / 10);
      assert s[..|s| - 1] == DecimalString(n / 10);
    }
  }

  /** `int()` accepts one leading sign: a sign followed by digit groups
      is read as the number the digits spell, negated after a minus. */
  lemma ParseSignedGroups(c: char, s: string)
    requires IsSign(c) && IsDigitGroups(s)
    ensures ParseInt([c] + s) == Some(if c == '-' then 0 - GroupsValue(s) else GroupsValue(s))
  {
    StripSignedGroups(c, s);
    ParseSigned(c, s);
  }

  lemma StripSignedGroups(c: char, s: string)
    requires IsSign(c) && IsDigitGroups(s)
    ensures Trim(IntBlanks, [c] + s) == [c] + s
  {
    var m := [c] + s;
    assert !IsIntSpace(c) && !IsIntSpace(s[|s| - 1]);
    assert m[0] == c && m[|m| - 1] == s[|s| - 1];
    TrimUnpadded(m);
  }

  /** `str(n)` spells digit groups with no underscore. */
  lemma DecimalGroups(n: nat)
    ensures IsDigitGroups(DecimalString(n))
  {
  }

  /** `int(str(n)) == n` for every natural number. */
  lemma ParseDecimal(n: nat)
    ensures ParseInt(DecimalString(n)) == Some(n)
  {
    var s := DecimalString(n);
    DecimalGroups(n);
    assert !IsIntSpace(s[0]) && !IsIntSpace(s[|s| - 1]);
    TrimUnpadded(s);
    ParseUnsigned(s);
    DecimalValue(n);
  }

  /** `int()` ignores the whitespace it skips around the literal. */
  lemma ParseIgnoresPadding(pre: string, s: string, post: string)
    requires AllBlank(IntBlanks, pre) && AllBlank(IntBlanks, post)
    ensures ParseInt(pre + s + post) == ParseInt(s)
  {
    TrimPadded(IntBlanks, pre, s, post);
  }

  lemma TrimUnpadded(s: string)
    requires s != [] && !IsIntSpace(s[0]) && !IsIntSpace(s[|s| - 1])
    ensures Trim(IntBlanks, s) == s
  {
  }

  lemma {:induction false} TrimPadded(b: Blanks, pre: string, s: string, post: string)
    requires AllBlank(b, pre) && AllBlank(b, post)
    ensures Trim(b, pre + s + post) == Trim(b, s)
  {
    assert pre + s + post == pre + (s + post);
    TrimLeftPadded(b, pre, s + post);
    TrimLeftAppend(b, s, post);
    if AllBlank(b, s) {
      TrimLeftAllBlank(b, post);
      TrimLeftAllBlank(b, s);
    } else {
      TrimRightPadded(b, TrimLeft(b, s), post);
    }
  }

  lemma {:induction false} TrimLeftAllBlank(b: Blanks, s: string)
    requires AllBlank(b, s)
    ensures TrimLeft(b, s) == []
    decreases |s|
  {
    if s != [] {
      TrimLeftAllBlank(b, s[1..]);
    }
  }

  lemma {:induction false} TrimLeftPadded(b: Blanks, pre: string, s: string)
    requires AllBlank(b, pre)
    ensures TrimLeft(b, pre + s) == TrimLeft(b, s)
    decreases |pre|
  {
    if pre != [] {
      assert (pre + s)[1..] == pre[1..] + s;
      TrimLeftPadded(b, pre[1..], s);
    } else {
      assert pre + s == s;
    }
  }

  lemma {:induction false} TrimRightPadded(b: Blanks, s: string, post: string)
    requires AllBlank(b, post)
    ensures TrimRight(b, s + post) == TrimRight(b, s)
    decreases |post|
  {
    if post != [] {
      var m := s + post;
      assert m[..|m| - 1] == s + post[..|post| - 1];
      TrimRightPadded(b, s, post[..|post| - 1]);
    } else {
      assert s + post == s;
    }
  }

  lemma {:induction false} TrimLeftAppend(b: Blanks, s: string, post: string)
    ensures !AllBlank(b, s) ==> TrimLeft(b, s + post) == TrimLeft(b, s) + post
    ensures AllBlank(b, s) ==> TrimLeft(b, s + post) == TrimLeft(b, post)
    decreases |s|
  {
    if s == [] {
      assert s + post == post;
    } else if IsBlank(b, s[0]) {
      assert (s + post)[1..] == s[1..] + post;
      assert AllBlank(b, s) <==> AllBlank(b, s[1..]) by {
        assert forall i :: 1 <= i < |s| ==> s[i] == s[1..][i - 1];
      }
      TrimLeftAppend(b, s[1..], post);
    } else {
      assert (s + post)[0] == s[0];
    }
  }
}
