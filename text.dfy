// Python string operations used by the pipeline, on `seq<char>`.
module Text {

  /** The characters Python's `str.isspace` accepts (and so `split()` and `strip()` remove). */
  predicate IsSpace(c: char)
  {
    c == ' ' || ('\t' <= c <= '\r') || ('\U{001C}' <= c <= '\U{001F}')
    || c == '\U{0085}' || c == '\U{00A0}' || c == '\U{1680}'
    || ('\U{2000}' <= c <= '\U{200A}') || c == '\U{2028}' || c == '\U{2029}'
    || c == '\U{202F}' || c == '\U{205F}' || c == '\U{3000}'
  }

  predicate AllSpace(s: string)
  {
    forall i :: 0 <= i < |s| ==> IsSpace(s[i])
  }

  predicate NoSpace(s: string)
  {
    forall i :: 0 <= i < |s| ==> !IsSpace(s[i])
  }

  // ---------------------------------------------------------------- strip

  /** The end of the run of whitespace that starts at `i`. */
  function SpacesFrom(s: string, i: nat): (k: nat)
    requires i <= |s|
    ensures i <= k <= |s|
    ensures forall j :: i <= j < k ==> IsSpace(s[j])
    ensures k < |s| ==> !IsSpace(s[k])
    decreases |s| - i
  {
    if i < |s| && IsSpace(s[i]) then SpacesFrom(s, i + 1) else i
  }

  /** The start of the run of whitespace that ends at `i`. */
  function SpacesBefore(s: string, i: nat): (k: nat)
    requires i <= |s|
    ensures k <= i
    ensures forall j :: k <= j < i ==> IsSpace(s[j])
    ensures k > 0 ==> !IsSpace(s[k - 1])
  {
    if i > 0 && IsSpace(s[i - 1]) then SpacesBefore(s, i - 1) else i
  }

  /** A slice whose every character is whitespace. */
  lemma AllSpaceSlice(s: string, a: nat, b: nat)
    requires a <= b <= |s| && forall j :: a <= j < b ==> IsSpace(s[j])
    ensures AllSpace(s[a..b])
  {
    forall j | 0 <= j < b - a
      ensures IsSpace(s[a..b][j])
    {
      assert s[a..b][j] == s[a + j];
    }
  }

  function LStrip(s: string): (r: string)
    ensures |r| <= |s| && r == s[|s| - |r|..]
    ensures AllSpace(s[..|s| - |r|])
    ensures r != [] ==> !IsSpace(r[0])
  {
    var k := SpacesFrom(s, 0);
    AllSpaceSlice(s, 0, k);
    s[k..]
  }

  function RStrip(s: string): (r: string)
    ensures |r| <= |s| && r == s[..|r|]
    ensures AllSpace(s[|r|..])
    ensures r != [] ==> !IsSpace(r[|r| - 1])
  {
    var k := SpacesBefore(s, |s|);
    AllSpaceSlice(s, k, |s|);
    s[..k]
  }

  /** Python `s.strip()`: the slice left after removing leading and trailing whitespace. */
  function Strip(s: string): (r: string)
    ensures |r| <= |s|
    ensures r == [] <==> AllSpace(s)
    ensures r != [] ==> !IsSpace(r[0]) && !IsSpace(r[|r| - 1])
  {
    var l := LStrip(s);
    var r := RStrip(l);
    StripBlank(s, l, r);
    r
  }

  lemma StripBlank(s: string, l: string, r: string)
    requires l == LStrip(s) && r == RStrip(l)
    ensures r == [] <==> AllSpace(s)
  {
    var k := |s| - |l|;
    if r == [] {
      assert l[|r|..] == l;
      forall i | 0 <= i < |s| ensures IsSpace(s[i]) {
        if i < k {
          assert s[i] == s[..k][i];
        }
      }
    }
    if l == [] {
      assert r == [];
    }
  }

  /** Where the stripped text starts: after the leading whitespace. */
  function StripStart(s: string): (k: nat)
    ensures k <= |s|
  {
    |s| - |LStrip(s)|
  }

  /** A prefix `r` of the suffix `l` of `s` at `k` is the slice of `s` at `k`. */
  lemma SliceOfSlice(s: string, l: string, r: string, k: nat)
    requires k <= |s| && l == s[k..] && |r| <= |l| && r == l[..|r|]
    ensures k + |r| <= |s| && r == s[k..k + |r|]
  {
    forall i | 0 <= i < |r|
      ensures r[i] == s[k + i]
    {
      assert r[i] == l[i];
    }
  }

  /** The stripped text is the slice of `s` at `StripStart(s)`. */
  lemma StripSlice(s: string)
    ensures StripStart(s) + |Strip(s)| <= |s|
    ensures Strip(s) == s[StripStart(s)..StripStart(s) + |Strip(s)|]
  {
    var l := LStrip(s);
    var r := RStrip(l);
    assert Strip(s) == r;
    SliceOfSlice(s, l, r, StripStart(s));
  }

  /** A text with no space at either end is its own strip. */
  lemma StripUnpadded(s: string)
    requires s != [] && !IsSpace(s[0]) && !IsSpace(s[|s| - 1])
    ensures Strip(s) == s
  {
    assert LStrip(s) == s;
    assert RStrip(s) == s;
  }

  /** Python truthiness of `s.strip()`. */
  predicate IsBlank(s: string) { Strip(s) == [] }

  // ---------------------------------------------------------------- whitespace split

  /** Length of the leading run of non-space characters. */
  function WordLen(t: string): (n: nat)
    ensures n <= |t| && NoSpace(t[..n])
    ensures n < |t| ==> IsSpace(t[n])
  {
    if |t| == 0 || IsSpace(t[0]) then 0
    else
      var n := WordLen(t[1..]);
      assert t[..n + 1] == [t[0]] + t[1..][..n];
      n + 1
  }

  /** Python `s.split()`: the maximal runs of non-space characters, in order. */
  function Words(s: string): (r: seq<string>)
    decreases |s|
    ensures forall k :: 0 <= k < |r| ==> r[k] != [] && NoSpace(r[k])
  {
    var t := LStrip(s);
    if t == [] then []
    else
      var n := WordLen(t);
      assert !IsSpace(t[0]);
      var w := t[..n];
      assert w != [] && NoSpace(w);
      [w] + Words(t[n..])
  }

  /** The non-space characters of `s`, in order. */
  function NonSpace(s: string): string
  {
    if s == [] then [] else (if IsSpace(s[0]) then [] else [s[0]]) + NonSpace(s[1..])
  }

  function Concat(ws: seq<string>): string
  {
    if ws == [] then [] else ws[0] + Concat(ws[1..])
  }

  lemma {:induction false} NonSpaceAppend(a: string, b: string)
    ensures NonSpace(a + b) == NonSpace(a) + NonSpace(b)
  {
    if a != [] {
      assert (a + b)[1..] == a[1..] + b;
      NonSpaceAppend(a[1..], b);
    } else {
      assert a + b == b;
    }
  }

  lemma {:induction false} NonSpaceOfAllSpace(s: string)
    requires AllSpace(s)
    ensures NonSpace(s) == []
  {
    if s != [] { NonSpaceOfAllSpace(s[1..]); }
  }

  lemma {:induction false} NonSpaceOfNoSpace(s: string)
    requires NoSpace(s)
    ensures NonSpace(s) == s
  {
    if s != [] { NonSpaceOfNoSpace(s[1..]); }
  }

  /** Leading whitespace contributes nothing to the non-space characters. */
  lemma NonSpaceOfLStrip(s: string)
    ensures NonSpace(s) == NonSpace(LStrip(s))
  {
    var t := LStrip(s);
    var skipped := s[..|s| - |t|];
    assert s == skipped + t;
    NonSpaceAppend(skipped, t);
    NonSpaceOfAllSpace(skipped);
  }

  /** The first word of a stripped text keeps all its characters. */
  lemma NonSpaceOfWordStart(t: string, n: nat)
    requires n <= |t| && NoSpace(t[..n])
    ensures NonSpace(t) == t[..n] + NonSpace(t[n..])
  {
    assert t == t[..n] + t[n..];
    NonSpaceAppend(t[..n], t[n..]);
    NonSpaceOfNoSpace(t[..n]);
  }

  /** `split()` loses only whitespace: the words put together are the non-space characters. */
  lemma {:induction false} WordsKeepAllText(s: string)
    ensures Concat(Words(s)) == NonSpace(s)
    decreases |s|
  {
    var t := LStrip(s);
    NonSpaceOfLStrip(s);
    if t != [] {
      var n := WordLen(t);
      NonSpaceOfWordStart(t, n);
      WordsKeepAllText(t[n..]);
      assert Words(s) == [t[..n]] + Words(t[n..]);
    }
  }

  /** A text has no words exactly when it is blank. */
  lemma WordsOfBlank(s: string)
    ensures Words(s) == [] <==> AllSpace(s)
  {
    var t := LStrip(s);
    assert s == s[..|s| - |t|] + t;
    if t != [] {
      assert !IsSpace(s[|s| - |t|]);
    }
  }

  /** The pieces longer than `n` characters, in order. */
  function LongerThan(qs: seq<string>, n: nat): (r: seq<string>)
    ensures |r| <= |qs|
    ensures forall k :: 0 <= k < |r| ==> |r[k]| > n
  {
    if qs == [] then []
    else if |qs[0]| > n then [qs[0]] + LongerThan(qs[1..], n)
    else LongerThan(qs[1..], n)
  }

  /** Every piece stripped: `[p.strip() for p in ps]`. */
  function StripAll(ps: seq<string>): (r: seq<string>)
    ensures |r| == |ps| && forall k :: 0 <= k < |ps| ==> r[k] == Strip(ps[k])
  {
    seq(|ps|, k requires 0 <= k < |ps| => Strip(ps[k]))
  }

  /** The stripped pieces longer than `n` characters, in order: `[p.strip() for p in ps if len(p.strip()) > n]`. */
  function StrippedLongerThan(ps: seq<string>, n: nat): (r: seq<string>)
    ensures |r| <= |ps|
    ensures forall k :: 0 <= k < |r| ==> |r[k]| > n
  {
    LongerThan(StripAll(ps), n)
  }

  /** The number of pieces that are not blank: `len([p.strip() for p in ps if p.strip()])`. */
  function CountNonBlank(ps: seq<string>): (n: nat)
    ensures n <= |ps|
  {
    |StrippedLongerThan(ps, 0)|
  }

  lemma {:induction false} ConcatLength(ws: seq<string>)
    requires forall k :: 0 <= k < |ws| ==> ws[k] != []
    ensures |ws| <= |Concat(ws)|
  {
    if ws != [] { ConcatLength(ws[1..]); }
  }

  lemma {:induction false} NonSpaceWithinNonBlank(s: string)
    ensures |NonSpace(s)| <= |ReplaceChar(s, ' ', "")| <= |s|
  {
    if s != [] { NonSpaceWithinNonBlank(s[1..]); }
  }

  /**
   * `split()` yields no more words than there are characters other than ' ': each word holds
   * at least one character, and words hold no whitespace.
   */
  lemma WordCountBound(s: string)
    ensures |Words(s)| <= |ReplaceChar(s, ' ', "")| <= |s|
  {
    ConcatLength(Words(s));
    WordsKeepAllText(s);
    NonSpaceWithinNonBlank(s);
  }

  // ---------------------------------------------------------------- separator split

  /** Index of the first character of `s` in `seps`, or |s|. */
  function FirstIn(s: string, seps: set<char>): (i: nat)
    ensures i <= |s|
    ensures forall k :: 0 <= k < i ==> s[k] !in seps
    ensures i < |s| ==> s[i] in seps
  {
    if s == [] || s[0] in seps then 0 else 1 + FirstIn(s[1..], seps)
  }

  predicate Avoids(s: string, seps: set<char>)
  {
    forall k :: 0 <= k < |s| ==> s[k] !in seps
  }

  /** A prefix free of separators ends no later than the first separator. */
  lemma {:induction false} AvoidsBeforeFirst(s: string, n: nat, seps: set<char>)
    requires n <= |s| && Avoids(s[..n], seps)
    ensures n <= FirstIn(s, seps)
  {
    if n > 0 {
      assert s[..n][0] == s[0];
      assert s[1..][..n - 1] == s[..n][1..];
      AvoidsBeforeFirst(s[1..], n - 1, seps);
    }
  }

  function CountIn(s: string, seps: set<char>): nat
  {
    if s == [] then 0 else (if s[0] in seps then 1 else 0) + CountIn(s[1..], seps)
  }

  /** Python `s.split(c)` for each separator character in `seps`: the pieces between separators. */
  function SplitOn(s: string, seps: set<char>): (r: seq<string>)
    decreases |s|
    ensures |r| >= 1
    ensures forall k :: 0 <= k < |r| ==> Avoids(r[k], seps)
  {
    var i := FirstIn(s, seps);
    if i == |s| then [s] else [s[..i]] + SplitOn(s[i + 1..], seps)
  }

  /** Python `re.split('[seps]+', s)`: the pieces between maximal runs of separators. */
  function SplitOnRuns(s: string, seps: set<char>): (r: seq<string>)
    decreases |s|
    ensures |r| >= 1
    ensures forall k :: 0 <= k < |r| ==> Avoids(r[k], seps)
  {
    var i := FirstIn(s, seps);
    if i == |s| then [s]
    else
      var rest := s[i..];
      var j := RunLen(rest, seps);
      [s[..i]] + SplitOnRuns(rest[j..], seps)
  }

  /** Length of the leading run of separators. */
  function RunLen(t: string, seps: set<char>): (n: nat)
    ensures n <= |t|
    ensures t != [] && t[0] in seps ==> n >= 1
    ensures forall k :: 0 <= k < n ==> t[k] in seps
  {
    if t == [] || t[0] !in seps then 0 else 1 + RunLen(t[1..], seps)
  }

  lemma {:induction false} CountInAppend(a: string, b: string, seps: set<char>)
    ensures CountIn(a + b, seps) == CountIn(a, seps) + CountIn(b, seps)
  {
    if a == [] {
      assert a + b == b;
    } else {
      assert (a + b)[1..] == a[1..] + b;
      CountInAppend(a[1..], b, seps);
    }
  }

  lemma {:induction false} CountInAvoiding(s: string, seps: set<char>)
    requires Avoids(s, seps)
    ensures CountIn(s, seps) == 0
  {
    if s != [] { CountInAvoiding(s[1..], seps); }
  }

  /** Splitting at single separators yields one more piece than there are separators. */
  lemma {:induction false} SplitOnCount(s: string, seps: set<char>)
    ensures |SplitOn(s, seps)| == CountIn(s, seps) + 1
    decreases |s|
  {
    var i := FirstIn(s, seps);
    assert Avoids(s[..i], seps);
    CountInAvoiding(s[..i], seps);
    if i == |s| {
      assert s[..i] == s;
    } else {
      assert s == s[..i] + [s[i]] + s[i + 1..];
      CountInAppend(s[..i] + [s[i]], s[i + 1..], seps);
      CountInAppend(s[..i], [s[i]], seps);
      SplitOnCount(s[i + 1..], seps);
    }
  }

  /** A text with no separator is its own single piece. */
  lemma SplitOnNone(s: string, seps: set<char>)
    requires Avoids(s, seps)
    ensures SplitOn(s, seps) == [s]
  {
    AvoidsBeforeFirst(s, |s|, seps);
    assert s[..|s|] == s;
  }

  /** Two separator-free texts joined by one separator split back into the two. */
  lemma SplitOnPair(a: string, c: char, b: string, seps: set<char>)
    requires c in seps && Avoids(a, seps) && Avoids(b, seps)
    ensures SplitOn(a + [c] + b, seps) == [a, b]
  {
    var s := a + [c] + b;
    assert s[..|a|] == a;
    AvoidsBeforeFirst(s, |a|, seps);
    assert s[|a|] == c;
    assert s[|a| + 1..] == b;
    SplitOnNone(b, seps);
  }

  /** A text holding a separator splits into at least two pieces. */
  lemma SplitOnSome(s: string, seps: set<char>)
    requires !Avoids(s, seps)
    ensures |SplitOn(s, seps)| >= 2
  {
  }

  /** `sep.join(parts)`. */
  function Join(parts: seq<string>, sep: string): string
  {
    if parts == [] then []
    else if |parts| == 1 then parts[0]
    else parts[0] + sep + Join(parts[1..], sep)
  }

  /** Splitting at one separator character and joining with it gives the text back. */
  lemma {:induction false} JoinSplitOn(s: string, c: char)
    ensures Join(SplitOn(s, {c}), [c]) == s
    decreases |s|
  {
    var i := FirstIn(s, {c});
    if i < |s| {
      var rest := SplitOn(s[i + 1..], {c});
      JoinSplitOn(s[i + 1..], c);
      assert SplitOn(s, {c}) == [s[..i]] + rest;
      assert s == s[..i] + [c] + s[i + 1..];
    }
  }

  /** Index of the first occurrence of the non-empty `sep` in `s`, or |s| when there is none. */
  function FirstAt(s: string, sep: string): (i: nat)
    requires sep != []
    ensures i <= |s|
    ensures i < |s| ==> OccursAt(s, sep, i)
    ensures forall k :: 0 <= k < i ==> !OccursAt(s, sep, k)
    decreases |s|
  {
    if s == [] || OccursAt(s, sep, 0) then 0
    else
      var j := FirstAt(s[1..], sep);
      OccursShift(s, sep);
      j + 1
  }

  /** An occurrence one place into `s` is an occurrence in its tail, and back. */
  lemma OccursShift(s: string, sep: string)
    requires s != []
    ensures forall k :: 1 <= k ==> (OccursAt(s, sep, k) <==> OccursAt(s[1..], sep, k - 1))
  {
    forall k | 1 <= k
      ensures OccursAt(s, sep, k) <==> OccursAt(s[1..], sep, k - 1)
    {
      if k + |sep| <= |s| {
        assert s[k..k + |sep|] == s[1..][k - 1..k - 1 + |sep|];
      }
    }
  }

  /**
   * Python `s.split(sep)` for a non-empty separator text: the pieces between the occurrences
   * of `sep` found from left to right, an occurrence resuming the search after its end.
   */
  function SplitOnText(s: string, sep: string): (r: seq<string>)
    requires sep != []
    ensures |r| >= 1
    decreases |s|
  {
    var i := FirstAt(s, sep);
    if i == |s| then [s] else [s[..i]] + SplitOnText(s[i + |sep|..], sep)
  }

  /** `sep` occurs nowhere in `s`. */
  predicate Lacks(s: string, sep: string)
  {
    forall j :: 0 <= j <= |s| ==> !OccursAt(s, sep, j)
  }

  /** The text before the first occurrence of `sep` holds no occurrence of it. */
  lemma LacksBeforeFirst(s: string, sep: string)
    requires sep != []
    ensures Lacks(s[..FirstAt(s, sep)], sep)
  {
    var i := FirstAt(s, sep);
    forall j | 0 <= j <= i && OccursAt(s[..i], sep, j)
      ensures false
    {
      assert s[..i][j..j + |sep|] == s[j..j + |sep|];
      assert OccursAt(s, sep, j);
    }
  }

  /** No piece of a split holds the separator. */
  lemma {:induction false} SplitOnTextPieces(s: string, sep: string)
    requires sep != []
    ensures forall k :: 0 <= k < |SplitOnText(s, sep)| ==> Lacks(SplitOnText(s, sep)[k], sep)
    decreases |s|
  {
    var i := FirstAt(s, sep);
    LacksBeforeFirst(s, sep);
    if i < |s| {
      var rest := s[i + |sep|..];
      SplitOnTextPieces(rest, sep);
      assert SplitOnText(s, sep) == [s[..i]] + SplitOnText(rest, sep);
    } else {
      assert s[..i] == s;
    }
  }

  /** Splitting at a separator text and joining with it gives the text back. */
  lemma {:induction false} JoinSplitOnText(s: string, sep: string)
    requires sep != []
    ensures Join(SplitOnText(s, sep), sep) == s
    decreases |s|
  {
    var i := FirstAt(s, sep);
    if i < |s| {
      var rest := SplitOnText(s[i + |sep|..], sep);
      JoinSplitOnText(s[i + |sep|..], sep);
      assert SplitOnText(s, sep) == [s[..i]] + rest;
      assert s == s[..i] + sep + s[i + |sep|..];
    }
  }

  // ---------------------------------------------------------------- searching

  predicate IsPrefix(p: string, s: string)
  {
    |p| <= |s| && s[..|p|] == p
  }

  predicate EndsWith(s: string, suffix: string)
  {
    |suffix| <= |s| && s[|s| - |suffix|..] == suffix
  }

  /** Python `sub in s`. */
  predicate Contains(s: string, sub: string)
    decreases |s|
  {
    IsPrefix(sub, s) || (s != [] && Contains(s[1..], sub))
  }

  predicate OccursAt(s: string, sub: string, i: int)
  {
    0 <= i && i + |sub| <= |s| && s[i..i + |sub|] == sub
  }

  /** `Contains` holds exactly when `sub` occurs at some position of `s`. */
  lemma {:induction false} ContainsAt(s: string, sub: string)
    ensures Contains(s, sub) <==> exists i :: OccursAt(s, sub, i)
    decreases |s|
  {
    if IsPrefix(sub, s) {
      assert OccursAt(s, sub, 0);
    } else if s != [] {
      ContainsAt(s[1..], sub);
      if Contains(s[1..], sub) {
        var i :| OccursAt(s[1..], sub, i);
        assert s[i + 1..i + 1 + |sub|] == s[1..][i..i + |sub|];
        assert OccursAt(s, sub, i + 1);
      }
      if exists i :: OccursAt(s, sub, i) {
        var i :| OccursAt(s, sub, i);
        assert i != 0;
        assert s[1..][i - 1..i - 1 + |sub|] == s[i..i + |sub|];
        assert OccursAt(s[1..], sub, i - 1);
      }
    }
  }

  /** `s.rsplit(c, 1)[-1]`: the text after the last `c`, or all of `s` when it has none. */
  function AfterLast(s: string, c: char): (r: string)
    ensures |r| <= |s| && r == s[|s| - |r|..]
    ensures c !in r
    ensures c in s ==> |r| < |s| && s[|s| - |r| - 1] == c
    ensures c !in s ==> r == s
  {
    var k := NotCharBefore(s, c, |s|);
    assert forall j :: 0 <= j < |s| - k ==> s[k..][j] == s[k + j];
    s[k..]
  }

  /** The start of the run without `c` that ends at `i`. */
  function NotCharBefore(s: string, c: char, i: nat): (k: nat)
    requires i <= |s|
    ensures k <= i
    ensures forall j :: k <= j < i ==> s[j] != c
    ensures k > 0 ==> s[k - 1] == c
  {
    if i > 0 && s[i - 1] != c then NotCharBefore(s, c, i - 1) else i
  }

  /** The text after the last `c` of `a + [c] + b`, when `b` has none, is `b`. */
  lemma AfterLastOf(a: string, c: char, b: string)
    requires c !in b
    ensures AfterLast(a + [c] + b, c) == b
  {
    var s := a + [c] + b;
    assert s[|a|] == c;
    assert s[|s| - |b|..] == b;
  }

  /** Python `s.replace(c, repl)` for one character. */
  function ReplaceChar(s: string, c: char, repl: string): (r: string)
    ensures c !in repl ==> c !in r
    ensures c !in s ==> r == s
    ensures repl == [] ==> multiset(r) == multiset(s)[c := 0] && |r| == |s| - multiset(s)[c]
  {
    if s == [] then []
    else
      assert s == [s[0]] + s[1..];
      (if s[0] == c then repl else [s[0]]) + ReplaceChar(s[1..], c, repl)
  }

  /** ASCII part of Python `str.lower()`. */
  function LowerChar(c: char): (d: char)
    ensures !('A' <= d <= 'Z')
  {
    if 'A' <= c <= 'Z' then (c as int + 32) as char else c
  }

  function Lower(s: string): (r: string)
    ensures |r| == |s|
    ensures forall i :: 0 <= i < |s| ==> r[i] == LowerChar(s[i])
  {
    if s == [] then [] else [LowerChar(s[0])] + Lower(s[1..])
  }

  function UpperChar(c: char): char
  {
    if 'a' <= c <= 'z' then (c as int - 32) as char else c
  }

  function Upper(s: string): (r: string)
    ensures |r| == |s|
    ensures forall i :: 0 <= i < |s| ==> r[i] == UpperChar(s[i])
  {
    if s == [] then [] else [UpperChar(s[0])] + Upper(s[1..])
  }

  // ---------------------------------------------------------------- decimal rendering

  predicate IsDigit(c: char) { '0' <= c <= '9' }

  /** ASCII part of Python's letter test. */
  predicate IsLetter(c: char) { 'a' <= c <= 'z' || 'A' <= c <= 'Z' }

  function DigitChar(d: nat): char
    requires d < 10
  {
    ('0' as int + d) as char
  }

  /** Python `str(n)` for a natural number. */
  function NatToString(n: nat): (r: string)
    ensures r != []
    ensures forall i :: 0 <= i < |r| ==> IsDigit(r[i])
    ensures |r| > 1 ==> r[0] != '0'
  {
    if n < 10 then [DigitChar(n)] else NatToString(n / 10) + [DigitChar(n % 10)]
  }

  /** The number a string of decimal digits denotes. */
  function DigitsValue(s: string): nat
    requires forall i :: 0 <= i < |s| ==> IsDigit(s[i])
  {
    if s == [] then 0
    else
      assert IsDigit(s[|s| - 1]);
      10 * DigitsValue(s[..|s| - 1]) + (s[|s| - 1] as int - '0' as int) as nat
  }

  /** Rendering a number in decimal loses nothing: reading the digits back gives the number. */
  lemma {:induction false} NatToStringRoundTrip(n: nat)
    ensures DigitsValue(NatToString(n)) == n
  {
    if n >= 10 {
      var r := NatToString(n);
      assert r[..|r| - 1] == NatToString(n / 10);
      NatToStringRoundTrip(n / 10);
    }
  }

  lemma NatToStringInjective(a: nat, b: nat)
    ensures NatToString(a) == NatToString(b) ==> a == b
  {
    NatToStringRoundTrip(a);
    NatToStringRoundTrip(b);
  }

  /** Python `str(i)` for an integer. */
  function IntToString(i: int): (r: string)
    ensures r != []
    ensures (r[0] == '-') <==> i < 0
  {
    if i < 0 then "-" + NatToString(-i) else NatToString(i)
  }
}
