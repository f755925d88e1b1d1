// C strings as the configuration parsers of common/dev/mp29526.c use them.
// A character stands for one byte of the image.
module CText {

  datatype Option<+T> = None | Some(value: T)

  type byte = x: int | 0 <= x < 256

  const LONG_MAX := 0x7FFF_FFFF
  const LONG_MIN := -0x8000_0000

  /** The C string that starts at s: everything before the first NUL. */
  function CStr(s: string): (r: string)
    ensures |r| <= |s| && r == s[..|r|] && '\0' !in r
    ensures |r| < |s| ==> s[|r|] == '\0'
  {
    if s == "" || s[0] == '\0' then "" else [s[0]] + CStr(s[1..])
  }

  /** Position of the first c in s, or |s|. */
  function IndexOf(s: string, c: char): (k: nat)
    ensures k <= |s| && forall i :: 0 <= i < k ==> s[i] != c
    ensures k < |s| ==> s[k] == c
  {
    if s == "" || s[0] == c then 0 else IndexOf(s[1..], c) + 1
  }

  /** Occurrences of c in s. */
  function Count(s: string, c: char): nat {
    if s == "" then 0 else (if s[0] == c then 1 else 0) + Count(s[1..], c)
  }

  /** The columns of s: the maximal pieces between separators, empty ones included. */
  function Split(s: string, c: char): (cols: seq<string>)
    ensures |cols| >= 1
    decreases |s|
  {
    var k := IndexOf(s, c);
    if k == |s| then [s] else [s[..k]] + Split(s[k + 1..], c)
  }

  function Join(cols: seq<string>, c: char): string
    requires |cols| >= 1
  {
    if |cols| == 1 then cols[0] else cols[0] + [c] + Join(cols[1..], c)
  }

  function NonEmpty(cols: seq<string>): seq<string> {
    if cols == [] then []
    else (if cols[0] == "" then [] else [cols[0]]) + NonEmpty(cols[1..])
  }

  /** One strtok_r step: the next token and the text that is left after it. */
  function StrTok(s: string, c: char): (r: Option<(string, string)>)
    ensures r.Some? ==> |r.value.1| < |s|
  {
    if s == "" then None
    else if s[0] == c then StrTok(s[1..], c)
    else
      var k := IndexOf(s, c);
      Some((s[..k], if k == |s| then "" else s[k + 1..]))
  }

  /** What a strtok_r loop delivers. */
  function Tokens(s: string, c: char): seq<string>
    decreases |s|
  {
    match StrTok(s, c)
    case None => []
    case Some((tok, rest)) => [tok] + Tokens(rest, c)
  }

  predicate IsSpace(c: char) {
    c == ' ' || '\t' <= c <= '\r'
  }

  function SkipSpace(s: string): string {
    if s != "" && IsSpace(s[0]) then SkipSpace(s[1..]) else s
  }

  /** Value of a digit, or -1. */
  function DigitVal(c: char): int {
    if '0' <= c <= '9' then c as int - '0' as int
    else if 'a' <= c <= 'f' then c as int - 'a' as int + 10
    else if 'A' <= c <= 'F' then c as int - 'A' as int + 10
    else -1
  }

  function Digits(s: string, radix: int, acc: int): int {
    if s == "" || !(0 <= DigitVal(s[0]) < radix) then acc
    else Digits(s[1..], radix, acc * radix + DigitVal(s[0]))
  }

  /** strtol with a 32-bit long: blanks, sign, optional 0x, digits, clamped. */
  function Strtol(s: string, radix: int): int {
    var t := SkipSpace(s);
    var neg := t != "" && t[0] == '-';
    var u := if t != "" && (t[0] == '-' || t[0] == '+') then t[1..] else t;
    var v := if radix == 16 && |u| >= 2 && u[0] == '0' && (u[1] == 'x' || u[1] == 'X') then u[2..] else u;
    var n := if neg then -Digits(v, radix, 0) else Digits(v, radix, 0);
    if n < LONG_MIN then LONG_MIN else if n > LONG_MAX then LONG_MAX else n
  }

  function ToU8(v: int): byte { v % 256 }

  function ToU16(v: int): (r: nat)
    ensures r < 0x1_0000
  {
    v % 0x1_0000
  }

  predicate StartsWith(s: string, p: string) {
    |p| <= |s| && s[..|p|] == p
  }

  /** strncpy into a zeroed buffer of n + 1 bytes. */
  function Take(s: string, n: nat): string {
    if |s| <= n then s else s[..n]
  }

  /** Lines with Windows line ends. */
  function Render(lines: seq<string>): string {
    if lines == [] then "" else lines[0] + "\r\n" + Render(lines[1..])
  }

  // ------------------------------------------------------------------ lemmas

  lemma {:induction false} IndexOfUnique(s: string, c: char, k: nat)
    requires k <= |s| && forall i :: 0 <= i < k ==> s[i] != c
    requires k < |s| ==> s[k] == c
    ensures IndexOf(s, c) == k
  {
    if k > 0 {
      IndexOfUnique(s[1..], c, k - 1);
    }
  }

  lemma {:induction false} CountAppend(a: string, b: string, c: char)
    ensures Count(a + b, c) == Count(a, c) + Count(b, c)
    decreases |a|
  {
    if a == "" {
      assert a + b == b;
    } else {
      assert (a + b)[1..] == a[1..] + b;
      CountAppend(a[1..], b, c);
    }
  }

  lemma {:induction false} CountNone(s: string, c: char)
    requires c !in s
    ensures Count(s, c) == 0
  {
    if s != "" {
      CountNone(s[1..], c);
    }
  }

  /** A text has one column more than it has separators. */
  lemma {:induction false} SplitCount(s: string, c: char)
    ensures |Split(s, c)| == Count(s, c) + 1
    decreases |s|
  {
    var k := IndexOf(s, c);
    assert s == s[..k] + s[k..];
    CountAppend(s[..k], s[k..], c);
    CountNone(s[..k], c);
    if k < |s| {
      SplitCount(s[k + 1..], c);
      assert s[k..][1..] == s[k + 1..];
    }
  }

  /** The columns joined again are the text. */
  lemma {:induction false} SplitJoin(s: string, c: char)
    ensures Join(Split(s, c), c) == s
    decreases |s|
  {
    var k := IndexOf(s, c);
    if k < |s| {
      var rest := Split(s[k + 1..], c);
      SplitJoin(s[k + 1..], c);
      assert ([s[..k]] + rest)[1..] == rest;
      assert Join([s[..k]] + rest, c) == s[..k] + [c] + s[k + 1..];
    }
  }

  lemma SplitHead(head: string, rest: string, c: char)
    requires c !in head
    ensures Split(head + [c] + rest, c) == [head] + Split(rest, c)
    ensures Count(head + [c] + rest, c) == 1 + Count(rest, c)
  {
    var text := head + [c] + rest;
    hide IndexOf;
    IndexOfUnique(text, c, |head|);
    assert text[..|head|] == head && text[|head| + 1..] == rest;
    assert text == head + ([c] + rest);
    CountAppend(head, [c] + rest, c);
    CountNone(head, c);
    assert ([c] + rest)[1..] == rest;
  }

  lemma SplitNone(s: string, c: char)
    requires c !in s
    ensures Split(s, c) == [s]
  {
    assert IndexOf(s, c) == |s|;
  }

  /** Columns without the separator are found again in the text they are joined to. */
  lemma {:induction false} JoinSplit(cols: seq<string>, c: char)
    requires cols != [] && forall i :: 0 <= i < |cols| ==> c !in cols[i]
    ensures Split(Join(cols, c), c) == cols && Count(Join(cols, c), c) == |cols| - 1
    decreases |cols|
  {
    hide Split, Count;
    if |cols| == 1 {
      CountNone(cols[0], c);
      SplitNone(cols[0], c);
    } else {
      JoinSplit(cols[1..], c);
      SplitHead(cols[0], Join(cols[1..], c), c);
      assert [cols[0]] + cols[1..] == cols;
    }
  }

  /** A string without NUL is a C string as it stands. */
  lemma {:induction false} CStrOfClean(s: string)
    requires '\0' !in s
    ensures CStr(s) == s
  {
    if s != "" {
      CStrOfClean(s[1..]);
    }
  }

  /** A strtok_r loop delivers exactly the non-empty columns, in order. */
  lemma {:induction false} TokensAreColumns(s: string, c: char)
    ensures Tokens(s, c) == NonEmpty(Split(s, c))
    decreases |s|
  {
    if s == "" {
      assert Split(s, c) == [""];
      assert NonEmpty([""]) == NonEmpty([""][1..]);
    } else if s[0] == c {
      TokensAreColumns(s[1..], c);
      assert IndexOf(s, c) == 0;
      assert Split(s, c) == [""] + Split(s[1..], c);
      assert Split(s, c)[1..] == Split(s[1..], c);
    } else {
      var k := IndexOf(s, c);
      if k == |s| {
        assert s[..k] == s;
        assert Split(s, c) == [s];
        assert Tokens("", c) == [];
        assert NonEmpty([s][1..]) == [];
      } else {
        TokensAreColumns(s[k + 1..], c);
        assert Split(s, c)[1..] == Split(s[k + 1..], c);
      }
    }
  }

  lemma {:induction false} NonEmptyAll(cols: seq<string>)
    ensures |NonEmpty(cols)| <= |cols|
    ensures |NonEmpty(cols)| == |cols| <==> "" !in cols
    ensures "" !in cols ==> NonEmpty(cols) == cols
  {
    if cols != [] {
      NonEmptyAll(cols[1..]);
      assert cols == [cols[0]] + cols[1..];
    }
  }
}
