/** Searching and trimming text the way the readers of streamed answers do. */
module Text {

  datatype Option<+T> = None | Some(value: T)

  /** `tag` stands in `s` at index `i`. */
  predicate At(s: string, tag: string, i: int) {
    0 <= i && i + |tag| <= |s| && s[i..i + |tag|] == tag
  }

  /** The first index of `tag` in `s` at or after `from`, or -1. */
  function IndexFrom(s: string, tag: string, from: nat): (r: int)
    requires from <= |s|
    ensures r == -1 || from <= r
    ensures r >= 0 ==> At(s, tag, r)
    ensures forall j :: from <= j && (r < 0 || j < r) ==> !At(s, tag, j)
    decreases |s| - from
  {
    if At(s, tag, from) then from
    else if from == |s| then -1
    else IndexFrom(s, tag, from + 1)
  }

  /** The first index of `tag` in `s`, or -1. */
  function Index(s: string, tag: string): (r: int)
    ensures r == -1 || 0 <= r <= |s| - |tag|
    ensures r >= 0 ==> At(s, tag, r)
    ensures forall j :: 0 <= j && (r < 0 || j < r) ==> !At(s, tag, j)
  {
    IndexFrom(s, tag, 0)
  }

  /** An occurrence with none before it is the one `Index` reports. */
  lemma FirstIsIndex(s: string, tag: string, k: int)
    requires At(s, tag, k)
    requires forall j :: 0 <= j < k ==> !At(s, tag, j)
    ensures Index(s, tag) == k
  {
  }

  /** Text with no occurrence of the tag has no index of it. */
  lemma NoneIsIndex(s: string, tag: string)
    requires forall j :: 0 <= j ==> !At(s, tag, j)
    ensures Index(s, tag) == -1
  {
  }

  lemma JoinKeepsFront(s: string, more: string, i: nat, j: nat)
    ensures i <= j <= |s| ==> (s + more)[i..j] == s[i..j]
  {
  }

  lemma JoinStraddles(s: string, more: string, i: nat, j: nat)
    ensures i <= |s| <= j <= |s + more| ==> (s + more)[i..j][..|s| - i] == s[i..]
  {
  }

  lemma SliceOfTail(s: string, k: nat, i: nat, j: nat)
    ensures k <= i <= j <= |s| ==> s[i..j] == s[k..][i - k..j - k]
  {
  }

  lemma SliceOfJoin(a: string, b: string, i: nat, j: nat)
    ensures |a| <= i <= j <= |a + b| ==> (a + b)[i..j] == b[i - |a|..j - |a|]
  {
  }

  lemma SplitAt(s: string, tag: string, k: nat)
    ensures At(s, tag, k) ==> s == s[..k] + tag + s[k + |tag|..]
  {
  }

  /** The last `l` characters of `s` are the first `l` of `tag`. */
  predicate EndsInto(s: string, tag: string, l: int) {
    0 <= l <= |s| && l <= |tag| && s[|s| - l..] == tag[..l]
  }

  /** How many trailing characters of `s` could still grow into `tag`. */
  function PartialTagLen(s: string, tag: string): (r: nat)
    requires |tag| > 0
    ensures r < |tag| && EndsInto(s, tag, r)
    ensures forall l :: r < l < |tag| ==> !EndsInto(s, tag, l)
  {
    PartialBelow(s, tag, |tag| - 1)
  }

  function PartialBelow(s: string, tag: string, length: nat): (r: nat)
    requires length < |tag|
    ensures r <= length && EndsInto(s, tag, r)
    ensures forall l :: r < l <= length ==> !EndsInto(s, tag, l)
  {
    if length == 0 then 0
    else if EndsInto(s, tag, length) then length
    else PartialBelow(s, tag, length - 1)
  }

  /** What is left of text without `tag` once its possible start of one is held back. */
  function Settled(s: string, tag: string): (r: nat)
    requires |tag| > 0
    ensures r <= |s| && |s| < r + |tag| && s[r..] <= tag
  {
    |s| - PartialTagLen(s, tag)
  }

  /**
   * Nothing that ends before the held-back tail can become the tag: searching the
   * tail with more text behind it is searching the whole text.
   */
  lemma TailFindsTag(s: string, more: string, tag: string)
    requires |tag| > 0 && Index(s, tag) < 0
    ensures var cut := Settled(s, tag);
            var k := Index(s[cut..] + more, tag);
            Index(s + more, tag) == if k < 0 then -1 else cut + k
  {
    var cut := Settled(s, tag);
    var whole, tail := s + more, s[cut..] + more;
    assert whole[cut..] == tail;
    forall j | 0 <= j < cut
      ensures !At(whole, tag, j)
    {
      NoTagBeforeTail(s, more, tag, j);
    }
    forall j | cut <= j
      ensures At(whole, tag, j) <==> At(tail, tag, j - cut)
    {
      AtInTail(whole, cut, tag, j);
    }
    var k := Index(tail, tag);
    if k >= 0 {
      assert At(whole, tag, cut + k);
      forall j | 0 <= j < cut + k
        ensures !At(whole, tag, j)
      {
        if j >= cut {
          assert !At(tail, tag, j - cut);
        }
      }
      FirstIsIndex(whole, tag, cut + k);
    } else {
      forall j | 0 <= j
        ensures !At(whole, tag, j)
      {
        if j >= cut {
          assert !At(tail, tag, j - cut);
        }
      }
      NoneIsIndex(whole, tag);
    }
  }

  lemma AtInTail(s: string, cut: nat, tag: string, j: nat)
    requires cut <= |s| && cut <= j
    ensures At(s, tag, j) <==> At(s[cut..], tag, j - cut)
  {
    if j + |tag| <= |s| {
      SliceOfTail(s, cut, j, j + |tag|);
    }
  }

  lemma NoTagBeforeTail(s: string, more: string, tag: string, j: nat)
    requires |tag| > 0 && Index(s, tag) < 0 && j < Settled(s, tag)
    ensures !At(s + more, tag, j)
  {
    if j + |tag| <= |s| {
      assert !At(s, tag, j);
      JoinKeepsFront(s, more, j, j + |tag|);
    } else if j + |tag| <= |s + more| {
      assert !EndsInto(s, tag, |s| - j);
      JoinStraddles(s, more, j, j + |tag|);
    }
  }

  lemma EndsInTail(s: string, more: string, tag: string, l: nat)
    requires l < |tag|
    ensures var cut := Settled(s, tag);
            EndsInto(s + more, tag, l) <==> EndsInto(s[cut..] + more, tag, l)
  {
    var cut := Settled(s, tag);
    var whole, tail := s + more, s[cut..] + more;
    assert whole[cut..] == tail;
    if l <= |tail| {
      assert whole[|whole| - l..] == tail[|tail| - l..];
    } else if l <= |whole| {
      // The part of it inside `s` would be a longer start of the tag than the one held back.
      assert !EndsInto(s, tag, l - |more|);
      JoinStraddles(s, more, |whole| - l, |whole|);
      assert whole[|whole| - l..] == whole[|whole| - l..|whole|];
    }
  }

  /** The same, for what is held back when neither text holds the tag. */
  lemma TailHoldsBack(s: string, more: string, tag: string)
    requires |tag| > 0
    ensures var cut := Settled(s, tag);
            Settled(s + more, tag) == cut + Settled(s[cut..] + more, tag)
  {
    var cut := Settled(s, tag);
    var whole, tail := s + more, s[cut..] + more;
    assert whole[cut..] == tail;
    forall l | 0 <= l < |tag|
      ensures EndsInto(whole, tag, l) <==> EndsInto(tail, tag, l)
    {
      EndsInTail(s, more, tag, l);
    }
    var a, b := PartialTagLen(whole, tag), PartialTagLen(tail, tag);
    assert EndsInto(whole, tag, a) && EndsInto(tail, tag, b);
  }

  /** An occurrence that is already complete stays the first one. */
  lemma FoundStays(s: string, more: string, tag: string)
    requires Index(s, tag) >= 0
    ensures Index(s + more, tag) == Index(s, tag)
  {
    var k := Index(s, tag);
    var whole := s + more;
    assert whole[k..k + |tag|] == s[k..k + |tag|];
    forall j | 0 <= j < k
      ensures !At(whole, tag, j)
    {
      assert !At(s, tag, j);
      JoinKeepsFront(s, more, j, j + |tag|);
    }
    FirstIsIndex(whole, tag, k);
  }

  /** White space as Unicode lists it, which is what trimming removes. */
  predicate IsSpace(c: char) {
    '\t' <= c <= '\r' || c == ' ' || c == '\U{85}' || c == '\U{A0}' || c == '\U{1680}' ||
    '\U{2000}' <= c <= '\U{200A}' || c == '\U{2028}' || c == '\U{2029}' || c == '\U{202F}' ||
    c == '\U{205F}' || c == '\U{3000}'
  }

  predicate Blank(s: string) {
    forall i :: 0 <= i < |s| ==> IsSpace(s[i])
  }

  function TrimLeft(s: string): (r: string)
    ensures |r| <= |s| && r == s[|s| - |r|..]
    ensures forall i :: 0 <= i < |s| - |r| ==> IsSpace(s[i])
    ensures r != "" ==> !IsSpace(r[0])
  {
    if s != "" && IsSpace(s[0]) then TrimLeft(s[1..]) else s
  }

  function TrimRight(s: string): (r: string)
    ensures |r| <= |s| && r == s[..|r|]
    ensures forall i :: |r| <= i < |s| ==> IsSpace(s[i])
    ensures r != "" ==> !IsSpace(r[|r| - 1])
  {
    if s != "" && IsSpace(s[|s| - 1]) then TrimRight(s[..|s| - 1]) else s
  }

  /** strings.TrimSpace */
  function TrimSpace(s: string): (r: string)
    ensures r != "" ==> !IsSpace(r[0])
  {
    TrimRight(TrimLeft(s))
  }

  /** What is left is the text between the white space at its ends, all of it. */
  lemma TrimSpaceIs(a: string, core: string, b: string)
    requires Blank(a) && Blank(b)
    requires core != "" ==> !IsSpace(core[0]) && !IsSpace(core[|core| - 1])
    ensures TrimSpace(a + core + b) == core
  {
    hide TrimLeft, TrimRight, IsSpace;
    var s := a + core + b;
    var l := TrimLeft(s);
    var start := |s| - |l|;
    if core == "" {
      assert forall i :: 0 <= i < |s| ==> IsSpace(s[i]);
    } else {
      assert s[|a|] == core[0];
      assert l[0] == s[start];
      assert start == |a| && l == core + b;
      var r := TrimRight(l);
      assert l[|core| - 1] == core[|core| - 1];
      assert r[|r| - 1] == l[|r| - 1];
      assert |r| == |core|;
    }
  }

  /** Characters appended behind something visible leave the front of the trimmed text alone. */
  lemma TrimGrows(s: string, more: string)
    requires TrimSpace(s) != ""
    ensures TrimSpace(s) <= TrimSpace(s + more)
  {
    TrimLeftGrows(s, more);
    TrimRightGrows(TrimLeft(s), more);
  }

  lemma TrimLeftGrows(s: string, more: string)
    requires TrimSpace(s) != ""
    ensures TrimLeft(s + more) == TrimLeft(s) + more
  {
    if s != "" && IsSpace(s[0]) {
      assert (s + more)[1..] == s[1..] + more;
      TrimLeftGrows(s[1..], more);
    }
  }

  lemma TrimRightGrows(s: string, more: string)
    requires TrimRight(s) != ""
    ensures TrimRight(s) <= TrimRight(s + more)
    decreases |more|
  {
    if more == "" {
      assert s + more == s;
    } else if IsSpace(more[|more| - 1]) {
      assert (s + more)[..|s + more| - 1] == s + more[..|more| - 1];
      TrimRightGrows(s, more[..|more| - 1]);
    } else {
      assert TrimRight(s + more) == s + more;
    }
  }

  /** A visible character survives trimming. */
  lemma TrimKeeps(s: string, k: nat)
    requires k < |s| && !IsSpace(s[k])
    ensures s[k] in TrimSpace(s)
  {
    var l := TrimLeft(s);
    var r := TrimRight(l);
    var start := |s| - |l|;
    assert start <= k;
    assert l[k - start] == s[k];
    assert r[k - start] == s[k];
  }
}
