/**
 * The Python string operations the importers rely on (`find`, `split`,
 * `strip`, `replace`, `capitalize`, `isnumeric`, `str(int)`, `int(str)`)
 * and the handful of regular expressions they use, each written out as an
 * explicit scanner over `seq<char>`. Letters and digits are ASCII; white
 * space is Python's.
 */
module Text {
  import opened Wrappers

  predicate IsDigit(c: char) { '0' <= c <= '9' }
  predicate IsUpper(c: char) { 'A' <= c <= 'Z' }
  predicate IsLower(c: char) { 'a' <= c <= 'z' }

  /**
   * The characters `str.isspace()` accepts, which are those `str.split()`,
   * `str.strip()` and the regex class `\s` treat as white space: the ASCII
   * controls 9 to 13 and 28 to 31, the space, and the Unicode spaces.
   */
  predicate IsSpace(c: char) {
    || ('\U{0009}' <= c <= '\U{000D}') || ('\U{001C}' <= c <= '\U{0020}')
    || c == '\U{0085}' || c == '\U{00A0}' || c == '\U{1680}'
    || ('\U{2000}' <= c <= '\U{200A}') || c == '\U{2028}' || c == '\U{2029}'
    || c == '\U{202F}' || c == '\U{205F}' || c == '\U{3000}'
  }

  /** `s.isnumeric()`: non-empty and made of digits only. */
  predicate IsNumeric(s: string) {
    |s| > 0 && forall i :: 0 <= i < |s| ==> IsDigit(s[i])
  }

  /** The character classes of the regular expressions in the source. */
  datatype CharClass =
    | Digit       // \d
    | Upper       // [A-Z]
    | Roman       // [IVX]
    | Blank       // the single space that strip(" ") removes
    | Whitespace  // \s, and what str.split() and str.strip() remove
    | RefSep      // [,;\s]
    | RefWord     // [\w\d, ]
    | Angle       // [<>]

  predicate In(c: char, cls: CharClass) {
    match cls
    case Digit => IsDigit(c)
    case Upper => IsUpper(c)
    case Roman => c == 'I' || c == 'V' || c == 'X'
    case Blank => c == ' '
    case Whitespace => IsSpace(c)
    case RefSep => c == ',' || c == ';' || IsSpace(c)
    case RefWord => IsUpper(c) || IsLower(c) || IsDigit(c) || c == '_' || c == ',' || c == ' '
    case Angle => c == '<' || c == '>'
  }

  // ---------------------------------------------------------------------
  // Searching

  /** `s.find(c)` for a one-character argument: first index of `c`, or -1. */
  function IndexOf(s: string, c: char): (r: int)
    ensures r == -1 <==> c !in s
    ensures r >= 0 ==> r < |s| && s[r] == c && c !in s[..r]
  {
    if |s| == 0 then -1
    else if s[0] == c then 0
    else
      var r := IndexOf(s[1..], c);
      if r < 0 then -1
      else
        assert s[..r + 1] == [s[0]] + s[1..][..r];
        r + 1
  }

  /** The first occurrence of `c` in `s` is at `i` when `s[i]` is `c` and no earlier character is. */
  lemma IndexOfAt(s: string, c: char, i: nat)
    requires i < |s| && s[i] == c && c !in s[..i]
    ensures IndexOf(s, c) == i
  {
  }

  predicate MatchAt(s: string, p: string, i: nat) {
    i + |p| <= |s| && s[i..i + |p|] == p
  }

  function FindFrom(s: string, p: string, i: nat): (r: int)
    requires i <= |s|
    decreases |s| - i
    ensures r == -1 || (i <= r && MatchAt(s, p, r as nat))
    ensures r == -1 ==> forall j: nat :: i <= j ==> !MatchAt(s, p, j)
    ensures r >= 0 ==> forall j: nat :: i <= j < r ==> !MatchAt(s, p, j)
  {
    if i + |p| > |s| then -1
    else if s[i..i + |p|] == p then i
    else FindFrom(s, p, i + 1)
  }

  /** `s.find(p)`: the first index where `p` occurs, or -1. */
  function Find(s: string, p: string): (r: int)
    ensures r == -1 || (r >= 0 && MatchAt(s, p, r))
    ensures r == -1 ==> forall j: nat :: !MatchAt(s, p, j)
    ensures r >= 0 ==> forall j: nat :: j < r ==> !MatchAt(s, p, j)
  {
    FindFrom(s, p, 0)
  }

  /** `p in s` for strings. */
  predicate Contains(s: string, p: string) {
    Find(s, p) >= 0
  }

  /** The first index `j >= i` whose character is outside `cls` (or `|s|`). */
  function SkipIn(s: string, i: nat, cls: CharClass): (j: nat)
    requires i <= |s|
    decreases |s| - i
    ensures i <= j <= |s|
    ensures forall k :: i <= k < j ==> In(s[k], cls)
    ensures j < |s| ==> !In(s[j], cls)
  {
    if i < |s| && In(s[i], cls) then SkipIn(s, i + 1, cls) else i
  }

  /** The first index `j >= i` whose character is in `cls` (or `|s|`). */
  function SkipOut(s: string, i: nat, cls: CharClass): (j: nat)
    requires i <= |s|
    decreases |s| - i
    ensures i <= j <= |s|
    ensures forall k :: i <= k < j ==> !In(s[k], cls)
    ensures j < |s| ==> In(s[j], cls)
  {
    if i < |s| && !In(s[i], cls) then SkipOut(s, i + 1, cls) else i
  }

  // ---------------------------------------------------------------------
  // Slicing, stripping, case

  /** Python's `s[a:b]` for any integers: negative indices count from the end, then both clamp. */
  function Slice(s: string, a: int, b: int): (r: string)
    ensures |r| <= |s|
  {
    var lo := Clamp(if a < 0 then a + |s| else a, |s|);
    var hi := Clamp(if b < 0 then b + |s| else b, |s|);
    if lo < hi then s[lo..hi] else ""
  }

  function Clamp(i: int, n: nat): (r: nat)
    ensures r <= n
  {
    if i < 0 then 0 else if i > n then n else i
  }

  /** `s[0:n]` for `n >= 0`: at most the first `n` characters. */
  function Truncate(s: string, n: nat): (r: string)
    ensures |r| <= n && |r| <= |s| && r == s[..|r|]
    ensures |s| <= n ==> r == s
    ensures |s| > n ==> |r| == n
  {
    if |s| > n then s[..n] else s
  }

  function StripLeft(s: string, cls: CharClass): (r: string)
    ensures |r| <= |s|
  {
    if s != [] && In(s[0], cls) then StripLeft(s[1..], cls) else s
  }

  function StripRight(s: string, cls: CharClass): (r: string)
    ensures |r| <= |s|
  {
    if s != [] && In(s[|s| - 1], cls) then StripRight(s[..|s| - 1], cls) else s
  }

  /** `StripLeft` removes a prefix of characters of the class and stops at the first one outside it. */
  lemma {:induction false} StripLeftShape(s: string, cls: CharClass)
    ensures var r := StripLeft(s, cls);
      && r == s[|s| - |r|..]
      && (forall i :: 0 <= i < |s| - |r| ==> In(s[i], cls))
      && (r != [] ==> !In(r[0], cls))
    decreases |s|
  {
    if s != [] && In(s[0], cls) {
      StripLeftShape(s[1..], cls);
    }
  }

  /** `StripRight` removes a suffix of characters of the class and stops at the last one outside it. */
  lemma {:induction false} StripRightShape(s: string, cls: CharClass)
    ensures var r := StripRight(s, cls);
      && r == s[..|r|]
      && (forall i :: |r| <= i < |s| ==> In(s[i], cls))
      && (r != [] ==> !In(r[|r| - 1], cls))
    decreases |s|
  {
    if s != [] && In(s[|s| - 1], cls) {
      StripRightShape(s[..|s| - 1], cls);
    }
  }

  /** `s.strip(chars)`: drop characters of `cls` from both ends. */
  function Strip(s: string, cls: CharClass): string {
    StripRight(StripLeft(s, cls), cls)
  }

  /** `re.sub("[abc]$", "", s)` on text without newlines: drop one trailing a, b or c. */
  function DropAbc(s: string): (r: string)
    ensures r == s || (|s| > 0 && r == s[..|s| - 1] && s[|s| - 1] in "abc")
  {
    if |s| > 0 && s[|s| - 1] in "abc" then s[..|s| - 1] else s
  }

  function ToUpper(c: char): char {
    if IsLower(c) then (c as int - 'a' as int + 'A' as int) as char else c
  }

  function ToLower(c: char): char {
    if IsUpper(c) then (c as int - 'A' as int + 'a' as int) as char else c
  }

  function LowerAll(s: string): (r: string)
    ensures |r| == |s|
    ensures forall i :: 0 <= i < |s| ==> r[i] == ToLower(s[i])
  {
    if s == [] then [] else [ToLower(s[0])] + LowerAll(s[1..])
  }

  /** `s.capitalize()`: first character upper case, the rest lower case. */
  function Capitalize(s: string): (r: string)
    ensures |r| == |s|
    ensures |s| > 0 ==> r[0] == ToUpper(s[0]) && r[1..] == LowerAll(s[1..])
  {
    if s == [] then [] else [ToUpper(s[0])] + LowerAll(s[1..])
  }

  /** `re.match("[A-Z][a-z]+", w)`: an upper-case letter followed by a lower-case one. */
  predicate StartsCapitalised(w: string) {
    |w| >= 2 && IsUpper(w[0]) && IsLower(w[1])
  }

  // ---------------------------------------------------------------------
  // Replacing and filtering

  /** `s.replace(c, "")` for a single character. */
  function Without(s: string, c: char): (r: string)
    ensures c !in r
    ensures |r| <= |s|
    ensures c !in s ==> r == s
  {
    if s == [] then [] else (if s[0] == c then [] else [s[0]]) + Without(s[1..], c)
  }

  /** `s.replace(p, q)`: every non-overlapping occurrence of `p`, left to right. */
  function ReplaceAll(s: string, p: string, q: string): (r: string)
    requires |p| > 0
    decreases |s|
    ensures !Contains(s, p) ==> r == s
  {
    if |s| < |p| then s
    else if s[..|p|] == p then q + ReplaceAll(s[|p|..], p, q)
    else
      assert MatchAt(s, p, 0) == false;
      NoMatchTail(s, p);
      [s[0]] + ReplaceAll(s[1..], p, q)
  }

  lemma NoMatchTail(s: string, p: string)
    requires |s| > 0
    ensures !Contains(s, p) ==> !Contains(s[1..], p)
  {
    if Contains(s[1..], p) {
      var j: nat := Find(s[1..], p);
      assert s[j + 1..j + 1 + |p|] == s[1..][j..j + |p|];
      assert MatchAt(s, p, j + 1);
    }
  }

  /** The characters of `s` that belong to `cls`, in order. */
  function Keep(s: string, cls: CharClass): (r: string)
    ensures forall i :: 0 <= i < |r| ==> In(r[i], cls)
  {
    if s == [] then [] else (if In(s[0], cls) then [s[0]] else []) + Keep(s[1..], cls)
  }

  lemma {:induction false} KeepAppend(a: string, b: string, cls: CharClass)
    ensures Keep(a + b, cls) == Keep(a, cls) + Keep(b, cls)
  {
    if a == [] {
      assert a + b == b;
    } else {
      assert (a + b)[0] == a[0];
      assert (a + b)[1..] == a[1..] + b;
      KeepAppend(a[1..], b, cls);
    }
  }

  lemma {:induction false} KeepNone(s: string, cls: CharClass)
    requires forall i :: 0 <= i < |s| ==> !In(s[i], cls)
    ensures Keep(s, cls) == []
  {
    if s != [] { KeepNone(s[1..], cls); }
  }

  lemma {:induction false} KeepAll(s: string, cls: CharClass)
    requires forall i :: 0 <= i < |s| ==> In(s[i], cls)
    ensures Keep(s, cls) == s
  {
    if s != [] { KeepAll(s[1..], cls); }
  }

  // ---------------------------------------------------------------------
  // Splitting and joining

  /** `sep.join(parts)`. */
  function Join(parts: seq<string>, sep: string): string {
    if |parts| == 0 then ""
    else if |parts| == 1 then parts[0]
    else parts[0] + sep + Join(parts[1..], sep)
  }

  lemma JoinCons(x: string, rest: seq<string>, sep: string)
    requires |rest| >= 1
    ensures Join([x] + rest, sep) == x + sep + Join(rest, sep)
  {
    assert ([x] + rest)[1..] == rest;
  }

  /** `''.join(parts)`. */
  function Concat(parts: seq<string>): string {
    if parts == [] then "" else parts[0] + Concat(parts[1..])
  }

  /** `s.split(c)` for a one-character separator. */
  function Split(s: string, c: char): (parts: seq<string>)
    decreases |s|
    ensures |parts| >= 1
    ensures |parts| >= 2 <==> IndexOf(s, c) >= 0
  {
    var i := IndexOf(s, c);
    if i < 0 then [s] else [s[..i]] + Split(s[i + 1..], c)
  }

  /** A split at the first separator: the text before it, then the split of the rest. */
  lemma SplitAt(s: string, c: char)
    requires IndexOf(s, c) >= 0
    ensures Split(s, c) == [s[..IndexOf(s, c)]] + Split(s[IndexOf(s, c) + 1..], c)
  {
  }

  /** No part of a split holds the separator. */
  lemma {:induction false} SplitParts(s: string, c: char)
    decreases |s|
    ensures forall i :: 0 <= i < |Split(s, c)| ==> c !in Split(s, c)[i]
  {
    var i := IndexOf(s, c);
    if i >= 0 {
      SplitParts(s[i + 1..], c);
      SplitAt(s, c);
      PartsFree(Split(s, c), s[..i], Split(s[i + 1..], c), c);
    }
  }

  /** No part of `[a] + rest` holds the separator when neither `a` nor any part of `rest` does. */
  lemma PartsFree(parts: seq<string>, a: string, rest: seq<string>, c: char)
    requires parts == [a] + rest && c !in a
    requires forall i :: 0 <= i < |rest| ==> c !in rest[i]
    ensures forall i :: 0 <= i < |parts| ==> c !in parts[i]
  {
    forall i | 0 <= i < |parts|
      ensures c !in parts[i]
    {
      if i > 0 {
        assert parts[i] == rest[i - 1];
      }
    }
  }

  /** Splitting on a character and joining back with it gives the text back. */
  lemma {:induction false} JoinSplit(s: string, c: char)
    ensures Join(Split(s, c), [c]) == s
  {
    var i := IndexOf(s, c);
    if i >= 0 {
      JoinSplit(s[i + 1..], c);
      JoinSplitStep(s, c);
    } else {
      assert Split(s, c) == [s];
    }
  }

  /** Joining the split of a text with a separator, from the joined split of what follows it. */
  lemma JoinSplitStep(s: string, c: char)
    requires IndexOf(s, c) >= 0
    requires Join(Split(s[IndexOf(s, c) + 1..], c), [c]) == s[IndexOf(s, c) + 1..]
    ensures Join(Split(s, c), [c]) == s
  {
    var i := IndexOf(s, c);
    SplitAt(s, c);
    JoinAround(s[..i], c, s[i + 1..], Split(s[i + 1..], c));
    Around(s, i);
  }

  /** A text is what precedes an index, the character there and what follows. */
  lemma Around(s: string, i: int)
    requires 0 <= i < |s|
    ensures s == s[..i] + [s[i]] + s[i + 1..]
  {
  }

  /** Joining a part in front of parts that join to `b` gives the part, the separator and `b`. */
  lemma JoinAround(a: string, c: char, b: string, rest: seq<string>)
    requires |rest| >= 1 && Join(rest, [c]) == b
    ensures Join([a] + rest, [c]) == a + [c] + b
  {
    JoinCons(a, rest, [c]);
  }

  /** `s.split()`: the maximal runs of non-white-space characters. */
  function Words(s: string): (ws: seq<string>)
    decreases |s|
    ensures forall i :: 0 <= i < |ws| ==> |ws[i]| > 0
    ensures forall i, j :: 0 <= i < |ws| && 0 <= j < |ws[i]| ==> !IsSpace(ws[i][j])
  {
    var i := SkipIn(s, 0, Whitespace);
    if i == |s| then []
    else
      var j := SkipOut(s, i, Whitespace);
      [s[i..j]] + Words(s[j..])
  }

  /** `re.findall("[cls]+", s)`: the maximal runs of characters of `cls`. */
  function Runs(s: string, cls: CharClass): (rs: seq<string>)
    decreases |s|
    ensures forall i :: 0 <= i < |rs| ==> |rs[i]| > 0
    ensures forall i, j :: 0 <= i < |rs| && 0 <= j < |rs[i]| ==> In(rs[i][j], cls)
  {
    var i := SkipOut(s, 0, cls);
    if i == |s| then []
    else
      var j := SkipIn(s, i, cls);
      [s[i..j]] + Runs(s[j..], cls)
  }

  /** Joining the runs of a class gives exactly the characters of that class, in order. */
  lemma {:induction false} ConcatRuns(s: string, cls: CharClass)
    ensures Concat(Runs(s, cls)) == Keep(s, cls)
    decreases |s|
  {
    var i := SkipOut(s, 0, cls);
    if i == |s| {
      KeepNone(s, cls);
    } else {
      var j := SkipIn(s, i, cls);
      ConcatRunsStep(s, cls, i, j);
      ConcatRuns(s[j..], cls);
      KeepSplit3(s, cls, i, j);
    }
  }

  lemma ConcatRunsStep(s: string, cls: CharClass, i: nat, j: nat)
    requires i == SkipOut(s, 0, cls) < |s| && j == SkipIn(s, i, cls)
    ensures Concat(Runs(s, cls)) == s[i..j] + Concat(Runs(s[j..], cls))
  {
    var rest := Runs(s[j..], cls);
    assert Runs(s, cls) == [s[i..j]] + rest;
    assert ([s[i..j]] + rest)[1..] == rest;
  }

  lemma KeepSplit3(s: string, cls: CharClass, i: nat, j: nat)
    requires i <= j <= |s|
    requires forall k :: 0 <= k < i ==> !In(s[k], cls)
    requires forall k :: i <= k < j ==> In(s[k], cls)
    ensures Keep(s, cls) == s[i..j] + Keep(s[j..], cls)
  {
    var a, b, c := s[..i], s[i..j], s[j..];
    assert forall k :: 0 <= k < |a| ==> a[k] == s[k];
    assert forall k :: 0 <= k < |b| ==> b[k] == s[i + k];
    KeepNone(a, cls);
    KeepAll(b, cls);
    Thirds(s, i, j);
    KeepThree(a, b, c, cls);
  }

  /** A text is its prefix, a middle slice and its suffix. */
  lemma Thirds(s: string, i: nat, j: nat)
    requires i <= j <= |s|
    ensures s == s[..i] + s[i..j] + s[j..]
  {
  }

  /** What a class keeps of three texts, the first with none of it and the second all of it. */
  lemma KeepThree(a: string, b: string, c: string, cls: CharClass)
    requires Keep(a, cls) == [] && Keep(b, cls) == b
    ensures Keep(a + b + c, cls) == b + Keep(c, cls)
  {
    KeepAppend(a + b, c, cls);
    KeepAppend(a, b, cls);
  }

  /** `re.split("[cls]+", s)`: the pieces between maximal runs of `cls`. */
  function SplitRuns(s: string, cls: CharClass): (parts: seq<string>)
    decreases |s|
    ensures |parts| >= 1
    ensures forall i, j :: 0 <= i < |parts| && 0 <= j < |parts[i]| ==> !In(parts[i][j], cls)
  {
    var i := SkipOut(s, 0, cls);
    if i == |s| then [s]
    else
      var j := SkipIn(s, i, cls);
      [s[..i]] + SplitRuns(s[j..], cls)
  }

  /** `re.findall("\(([\w\d, ]+)\)", s)`: the texts inside well-formed parentheses. */
  function ParenGroups(s: string): (gs: seq<string>)
    decreases |s|
    ensures forall i :: 0 <= i < |gs| ==> |gs[i]| > 0
    ensures forall i, j :: 0 <= i < |gs| && 0 <= j < |gs[i]| ==> In(gs[i][j], RefWord)
  {
    var i := IndexOf(s, '(');
    if i < 0 then []
    else
      var j := SkipIn(s, i + 1, RefWord);
      if j > i + 1 && j < |s| && s[j] == ')' then [s[i + 1..j]] + ParenGroups(s[j + 1..])
      else ParenGroups(s[i + 1..])
  }

  /** The length of the first alternative in `seps` that matches at `i`, or 0. */
  function SepLen(s: string, i: nat, seps: seq<string>): (n: nat)
    ensures n > 0 ==> i + n <= |s|
  {
    if seps == [] then 0
    else if |seps[0]| > 0 && MatchAt(s, seps[0], i) then |seps[0]|
    else SepLen(s, i, seps[1..])
  }

  /** The first position at or after `i` where an alternative matches, or `|s|`. */
  function NextSep(s: string, i: nat, seps: seq<string>): (r: nat)
    requires i <= |s|
    decreases |s| - i
    ensures i <= r <= |s|
    ensures r < |s| ==> SepLen(s, r, seps) > 0
    ensures forall k :: i <= k < r ==> SepLen(s, k, seps) == 0
  {
    if i == |s| then |s|
    else if SepLen(s, i, seps) > 0 then i
    else NextSep(s, i + 1, seps)
  }

  /**
   * `re.split("a|b|...", s)` for a pattern that is an alternation of
   * non-empty literal strings: leftmost match first, and at one position the
   * first alternative in order.
   */
  function AltSplit(s: string, seps: seq<string>): (parts: seq<string>)
    decreases |s|
    ensures |parts| >= 1
  {
    var p := NextSep(s, 0, seps);
    if p == |s| then [s]
    else [s[..p]] + AltSplit(s[p + SepLen(s, p, seps)..], seps)
  }

  // ---------------------------------------------------------------------
  // Numbers as text

  function DigitChar(d: nat): char
    requires d < 10
  {
    ('0' as int + d) as char
  }

  function DigitValue(c: char): (d: nat)
    requires IsDigit(c)
    ensures d < 10
  {
    c as int - '0' as int
  }

  /** `str(n)` for a natural number. */
  function NatToString(n: nat): (r: string)
    ensures IsNumeric(r)
  {
    if n < 10 then [DigitChar(n)] else NatToString(n / 10) + [DigitChar(n % 10)]
  }

  /** `str(i)` for an integer. */
  function IntToString(i: int): string {
    if i < 0 then "-" + NatToString(-i) else NatToString(i)
  }

  /** `int(s)` for a string of digits (leading zeros allowed). */
  function ParseNat(s: string): nat
    requires forall i :: 0 <= i < |s| ==> IsDigit(s[i])
  {
    if s == [] then 0
    else
      assert IsDigit(s[|s| - 1]);
      ParseNat(s[..|s| - 1]) * 10 + DigitValue(s[|s| - 1])
  }

  /** `int(s)`: white space around an optional sign and decimal digits; None where Python raises ValueError. */
  function ParseInt(s: string): Option<int> {
    var t := Strip(s, Whitespace);
    if |t| > 0 && (t[0] == '+' || t[0] == '-') && IsNumeric(t[1..]) then
      var n: int := ParseNat(t[1..]);
      Some(if t[0] == '-' then -n else n)
    else if IsNumeric(t) then Some(ParseNat(t))
    else None
  }

  /** On a string of digits `int` is `ParseNat`. */
  lemma ParseIntDigits(s: string)
    requires IsNumeric(s)
    ensures ParseInt(s) == Some(ParseNat(s))
  {
    assert StripLeft(s, Whitespace) == s;
    assert StripRight(s, Whitespace) == s;
  }

  /** The digits of `a + b` read as those of `a`, shifted, plus those of `b`. */
  lemma {:induction false} ParseNatAppend(a: string, b: string)
    requires forall i :: 0 <= i < |a| ==> IsDigit(a[i])
    requires forall i :: 0 <= i < |b| ==> IsDigit(b[i])
    ensures forall i :: 0 <= i < |a + b| ==> IsDigit((a + b)[i])
    ensures ParseNat(a + b) == ParseNat(a) * Pow10(|b|) + ParseNat(b)
    decreases |b|
  {
    assert forall i :: 0 <= i < |a + b| ==> (a + b)[i] == if i < |a| then a[i] else b[i - |a|];
    if b == [] {
      assert a + b == a;
    } else {
      var b' := b[..|b| - 1];
      var d := DigitValue(b[|b| - 1]);
      assert (a + b)[..|a + b| - 1] == a + b';
      assert (a + b)[|a + b| - 1] == b[|b| - 1];
      ParseNatAppend(a, b');
      assert ParseNat(a + b) == ParseNat(a + b') * 10 + d;
      assert ParseNat(b) == ParseNat(b') * 10 + d;
      ShiftDigit(ParseNat(a), Pow10(|b'|), ParseNat(b'), d);
    }
  }

  /** Appending a digit to `x * p + q` multiplies the shift by ten. */
  lemma ShiftDigit(x: int, p: int, q: int, d: int)
    ensures (x * p + q) * 10 + d == x * (10 * p) + (q * 10 + d)
  {
    assert (x * p) * 10 == x * (10 * p);
  }

  function Pow10(n: nat): (r: nat)
    ensures r > 0
  {
    if n == 0 then 1 else 10 * Pow10(n - 1)
  }

  /** Reading back the decimal text of a natural number gives the number. */
  lemma {:induction false} ParseShow(n: nat)
    ensures ParseNat(NatToString(n)) == n
  {
    if n >= 10 {
      ParseShow(n / 10);
      var s := NatToString(n);
      assert s[..|s| - 1] == NatToString(n / 10);
    }
  }

  /** `"%0*d" % (width, n)`: the decimal text of `n`, zero-padded on the left. */
  function PadNat(n: nat, width: nat): (r: string)
    ensures |r| >= width
    ensures IsNumeric(r)
    decreases width
  {
    var t := NatToString(n);
    if |t| >= width then t else "0" + PadNat(n, width - 1)
  }
}
