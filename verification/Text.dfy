/**
 The string operations that Azure resource IDs go through: `strings.Split` on '/', taking the
 last part, and the case-insensitive comparison `strings.EqualFold` (on ASCII letters).
 */
module Text {

  predicate NoSlash(s: string) {
    '/' !in s
  }

  predicate AllNoSlash(parts: seq<string>) {
    forall i :: 0 <= i < |parts| ==> NoSlash(parts[i])
  }

  function Join(parts: seq<string>): string {
    if |parts| == 0 then "" else if |parts| == 1 then parts[0] else parts[0] + "/" + Join(parts[1..])
  }

  /** `strings.Split(s, "/")`: never empty, its parts hold no '/', and joining gives `s` back. */
  function Split(s: string): (parts: seq<string>)
    ensures |parts| >= 1
    ensures AllNoSlash(parts)
    ensures Join(parts) == s
  {
    if s == "" then [""]
    else
      var rest := Split(s[1..]);
      if s[0] == '/' then
        assert ([""] + rest)[1..] == rest;
        [""] + rest
      else
        var parts := [[s[0]] + rest[0]] + rest[1..];
        assert |parts| == 1 ==> rest == [rest[0]];
        assert |parts| > 1 ==> parts[1..] == rest[1..];
        assert s == [s[0]] + s[1..];
        parts
  }

  /** `parts[len(parts)-1]` of the split: the name at the end of a resource ID. */
  function LastSegment(s: string): (name: string)
    ensures NoSlash(name)
  {
    var parts := Split(s);
    parts[|parts| - 1]
  }

  /** How one more leading character extends a split. */
  function Grow(c: char, parts: seq<string>): seq<string>
    requires |parts| >= 1
  {
    if c == '/' then [""] + parts else [[c] + parts[0]] + parts[1..]
  }

  lemma {:induction false} GrowConcat(c: char, p: seq<string>, q: seq<string>)
    requires |p| >= 1
    ensures Grow(c, p + q) == Grow(c, p) + q
  {
    assert (p + q)[0] == p[0] && (p + q)[1..] == p[1..] + q;
  }

  /** Splitting is determined by its slashes: the converse of `Split`'s own contract. */
  lemma {:induction false} SplitConcat(a: string, b: string)
    ensures Split(a + "/" + b) == Split(a) + Split(b)
  {
    var s := a + "/" + b;
    if a == "" {
      assert s[1..] == b;
    } else {
      assert s[0] == a[0] && s[1..] == a[1..] + "/" + b;
      SplitConcat(a[1..], b);
      GrowConcat(a[0], Split(a[1..]), Split(b));
      assert Split(s) == Grow(s[0], Split(s[1..]));
      assert Split(a) == Grow(a[0], Split(a[1..]));
    }
  }

  lemma {:induction false} SplitNoSlash(s: string)
    requires NoSlash(s)
    ensures Split(s) == [s]
  {
    if s != "" {
      assert NoSlash(s[1..]);
      SplitNoSlash(s[1..]);
      assert s == [s[0]] + s[1..];
    }
  }

  lemma {:induction false} SplitJoin(parts: seq<string>)
    requires |parts| >= 1 && AllNoSlash(parts)
    ensures Split(Join(parts)) == parts
  {
    SplitNoSlash(parts[0]);
    if |parts| > 1 {
      SplitJoin(parts[1..]);
      SplitConcat(parts[0], Join(parts[1..]));
    } else {
      assert parts == [parts[0]];
    }
  }

  /** A slash-free name put at the end of any path is what the last segment recovers. */
  lemma {:induction false} LastSegmentOfPath(path: string, name: string)
    requires NoSlash(name)
    ensures LastSegment(path + "/" + name) == name
  {
    SplitConcat(path, name);
    SplitNoSlash(name);
  }

  /** Whatever is put at the end of a path, the last segment is the last segment of that. */
  lemma {:induction false} LastSegmentOfAnyPath(path: string, tail: string)
    ensures LastSegment(path + "/" + tail) == LastSegment(tail)
  {
    SplitConcat(path, tail);
    LastOfConcat(Split(path), Split(tail));
  }

  lemma {:induction false} LastOfConcat(p: seq<string>, q: seq<string>)
    requires |q| >= 1
    ensures (p + q)[|p + q| - 1] == q[|q| - 1]
  {
  }

  function FoldChar(c: char): char {
    if 'A' <= c <= 'Z' then (c as int + 32) as char else c
  }

  /** `strings.ToLower` on ASCII. */
  function Fold(s: string): (t: string)
    ensures |t| == |s|
    ensures forall i :: 0 <= i < |s| ==> t[i] == FoldChar(s[i])
  {
    seq(|s|, i requires 0 <= i < |s| => FoldChar(s[i]))
  }

  predicate EqualFold(a: string, b: string) {
    Fold(a) == Fold(b)
  }

  function FoldAll(parts: seq<string>): (r: seq<string>)
    ensures |r| == |parts|
    ensures forall i :: 0 <= i < |parts| ==> r[i] == Fold(parts[i])
  {
    if parts == [] then [] else [Fold(parts[0])] + FoldAll(parts[1..])
  }

  lemma {:induction false} FoldConcat(a: string, b: string)
    ensures Fold(a + b) == Fold(a) + Fold(b)
  {
    assert |Fold(a + b)| == |Fold(a) + Fold(b)|;
  }

  /** Changing letter case never moves a slash. */
  lemma {:induction false} FoldSplit(s: string)
    ensures Split(Fold(s)) == FoldAll(Split(s))
  {
    if s != "" {
      FoldSplit(s[1..]);
      assert Fold(s)[0] == FoldChar(s[0]) && Fold(s)[1..] == Fold(s[1..]);
      var rest := Split(s[1..]);
      if s[0] == '/' {
        assert Split(Fold(s)) == [""] + FoldAll(rest);
        assert Fold("") == "";
      } else {
        FoldConcat([s[0]], rest[0]);
        assert Fold([s[0]]) == [FoldChar(s[0])];
        assert Split(Fold(s)) == [[FoldChar(s[0])] + Fold(rest[0])] + FoldAll(rest)[1..];
        assert FoldAll(rest)[1..] == FoldAll(rest[1..]);
      }
    }
  }

  /** Last-segment extraction commutes with case folding. */
  lemma {:induction false} FoldLastSegment(s: string)
    ensures Fold(LastSegment(s)) == LastSegment(Fold(s))
  {
    FoldSplit(s);
  }

  lemma {:induction false} EqualFoldLastSegment(a: string, b: string)
    requires EqualFold(a, b)
    ensures EqualFold(LastSegment(a), LastSegment(b))
  {
    FoldLastSegment(a);
    FoldLastSegment(b);
  }

  /** `strings.Contains`. */
  predicate Contains(s: string, sub: string) {
    |sub| <= |s| && (s[..|sub|] == sub || (s != "" && Contains(s[1..], sub)))
  }

  lemma {:induction false} ContainsMiddle(a: string, sub: string, b: string)
    ensures Contains(a + sub + b, sub)
  {
    var s := a + sub + b;
    if a == "" {
      assert s[..|sub|] == sub;
    } else {
      assert s[1..] == a[1..] + sub + b;
      ContainsMiddle(a[1..], sub, b);
    }
  }
}
