/** A cell's `classList` (a DOMTokenList) as an ordered sequence of tokens,
    with the operations the editor applies to it. */
module ClassList {
  import opened JsText

  /** A token list holds each token at most once. */
  predicate NoDup(cs: seq<string>) {
    forall a, b :: 0 <= a < b < |cs| ==> cs[a] != cs[b]
  }

  /** A token that `classList.add` accepts: `add('')` throws a SyntaxError and a
      token with ASCII whitespace in it throws an InvalidCharacterError. */
  predicate ValidToken(t: string) {
    t != [] && forall k :: 0 <= k < |t| ==> !IsAsciiWhitespace(t[k])
  }

  /** `classList.add(t)`: the token is appended unless it is already there. */
  function Add(cs: seq<string>, t: string): (r: seq<string>)
    ensures forall x :: x in r <==> x in cs || x == t
    ensures NoDup(cs) ==> NoDup(r)
    ensures |cs| <= |r| <= |cs| + 1 && r[..|cs|] == cs
  {
    if t in cs then cs else cs + [t]
  }

  /** `classList.remove(t)`: the token is taken out, the others keep their order. */
  function Remove(cs: seq<string>, t: string): (r: seq<string>)
    ensures forall x :: x in r <==> x in cs && x != t
    ensures NoDup(cs) ==> NoDup(r)
    ensures |r| <= |cs| && (t in cs ==> |r| < |cs|)
    ensures cs != [] && cs[0] != t ==> r != [] && r[0] == cs[0]
    ensures t !in cs ==> r == cs
  {
    if cs == [] then []
    else if cs[0] == t then Remove(cs[1..], t)
    else
      var rest := Remove(cs[1..], t);
      assert NoDup(cs) ==> cs[0] !in cs[1..];
      assert t !in cs ==> cs == [cs[0]] + cs[1..];
      [cs[0]] + rest
  }

  /** In a list without repeats, removing the token at position `k` closes the gap. */
  lemma {:induction false} RemoveAt(cs: seq<string>, k: nat)
    requires NoDup(cs) && k < |cs|
    ensures Remove(cs, cs[k]) == cs[..k] + cs[k + 1..]
  {
    if k == 0 {
      assert cs[k] !in cs[1..];
    } else {
      assert cs[1..][k - 1] == cs[k];
      RemoveAt(cs[1..], k - 1);
      assert cs[..k] + cs[k + 1..] == [cs[0]] + (cs[1..][..k - 1] + cs[1..][k..]);
    }
  }

  /** A list without repeats whose every token is `t`, starting with `t`, is just `[t]`. */
  lemma OnlyToken(cs: seq<string>, t: string)
    requires NoDup(cs) && cs != [] && cs[0] == t
    requires forall x :: x in cs ==> x == t
    ensures cs == [t]
  {
    var last := |cs| - 1;
    assert cs[last] in cs;
    assert cs[last] == cs[0];
    assert last == 0;
  }

  /** Removes each token of `ts`, in order. */
  function RemoveAll(cs: seq<string>, ts: seq<string>): (r: seq<string>)
    ensures forall x :: x in r <==> x in cs && x !in ts
    ensures NoDup(cs) ==> NoDup(r)
    ensures |r| <= |cs|
    ensures cs != [] && cs[0] !in ts ==> r != [] && r[0] == cs[0]
  {
    if ts == [] then cs else Remove(RemoveAll(cs, ts[..|ts| - 1]), ts[|ts| - 1])
  }

  /** Removing tokens that are not there changes nothing. */
  lemma {:induction false} RemoveAllAbsent(cs: seq<string>, ts: seq<string>)
    requires forall t :: t in ts ==> t !in cs
    ensures RemoveAll(cs, ts) == cs
  {
    if ts != [] {
      RemoveAllAbsent(cs, ts[..|ts| - 1]);
      assert ts[|ts| - 1] in ts;
    }
  }

  /** The tokens other than the base marker `cell`, in order
      (`Array.from(cell.classList).filter(c => c !== 'cell')`). */
  function Others(cs: seq<string>): (r: seq<string>)
    ensures forall x :: x in r <==> x in cs && x != "cell"
    ensures NoDup(cs) ==> NoDup(r)
  {
    if cs == [] then []
    else
      var init := Others(cs[..|cs| - 1]);
      var last := cs[|cs| - 1];
      assert cs == cs[..|cs| - 1] + [last];
      assert NoDup(cs) ==> NoDup(cs[..|cs| - 1]) && last !in cs[..|cs| - 1];
      init + (if last == "cell" then [] else [last])
  }

  /** For a list that starts with `cell` and holds it once, `Others` is the rest. */
  lemma {:induction false} OthersOfCellList(xs: seq<string>)
    requires "cell" !in xs
    ensures Others(["cell"] + xs) == xs
    decreases |xs|
  {
    if xs != [] {
      var cs := ["cell"] + xs;
      assert cs[..|cs| - 1] == ["cell"] + xs[..|xs| - 1];
      OthersOfCellList(xs[..|xs| - 1]);
      assert xs == xs[..|xs| - 1] + [xs[|xs| - 1]];
    }
  }

  /** What `cell.classList.forEach(cls => { if (cls !== 'cell') cell.classList.remove(cls); })`
      does: the callback for position `i` sees the list as earlier removals left it,
      so the token that slides into a just-vacated position is never visited. */
  function LiveWalk(cs: seq<string>, i: nat): seq<string>
    decreases |cs| - i
  {
    if i >= |cs| then cs
    else if cs[i] == "cell" then LiveWalk(cs, i + 1)
    else LiveWalk(Remove(cs, cs[i]), i + 1)
  }

  /** The live walk only removes tokens, and never `cell`; a list that starts with
      `cell` and has no repeats still does afterwards. */
  lemma {:induction false} LiveWalkKeeps(cs: seq<string>, i: nat)
    ensures forall x :: x in LiveWalk(cs, i) ==> x in cs
    ensures cs != [] && cs[0] == "cell" && NoDup(cs) ==>
      LiveWalk(cs, i) != [] && LiveWalk(cs, i)[0] == "cell" && NoDup(LiveWalk(cs, i))
    decreases |cs| - i
  {
    if i < |cs| {
      if cs[i] == "cell" {
        LiveWalkKeeps(cs, i + 1);
      } else {
        LiveWalkKeeps(Remove(cs, cs[i]), i + 1);
      }
    }
  }

  /** The tokens at the odd positions 1, 3, 5, ... of `xs`. */
  function Odds(xs: seq<string>): seq<string>
  {
    if |xs| < 2 then [] else [xs[1]] + Odds(xs[2..])
  }

  /** The callback at position `|p|` removes `xs[0]`, and `xs[1]` slides into its place. */
  lemma LiveWalkStep(p: seq<string>, xs: seq<string>)
    requires NoDup(p + xs) && xs != [] && xs[0] != "cell"
    ensures NoDup(p + xs[1..])
    ensures LiveWalk(p + xs, |p|) == LiveWalk(p + xs[1..], |p| + 1)
  {
    var cs := p + xs;
    assert cs[|p|] == xs[0];
    RemoveAt(cs, |p|);
    assert cs[..|p|] + cs[|p| + 1..] == p + xs[1..];
  }

  /** Two positions further on, the walk is where it was with `xs[1]` moved into the prefix. */
  lemma LiveWalkPair(p: seq<string>, xs: seq<string>)
    requires NoDup(p + xs) && |xs| >= 2 && "cell" !in xs
    ensures NoDup((p + [xs[1]]) + xs[2..]) && "cell" !in xs[2..]
    ensures LiveWalk(p + xs, |p|) == LiveWalk((p + [xs[1]]) + xs[2..], |p + [xs[1]]|)
    ensures (p + [xs[1]]) + Odds(xs[2..]) == p + Odds(xs)
  {
    LiveWalkStep(p, xs);
    assert p + xs[1..] == (p + [xs[1]]) + xs[2..];
    assert forall x :: x in xs[2..] ==> x in xs;
    assert Odds(xs) == [xs[1]] + Odds(xs[2..]);
  }

  /** From position `|p|` on, the live walk removes one token and skips the next. */
  lemma {:induction false} LiveWalkSkips(p: seq<string>, xs: seq<string>)
    requires NoDup(p + xs) && "cell" !in xs
    ensures LiveWalk(p + xs, |p|) == p + Odds(xs)
    decreases |xs|
  {
    if |xs| >= 2 {
      LiveWalkPair(p, xs);
      LiveWalkSkips(p + [xs[1]], xs[2..]);
    } else if |xs| == 1 {
      LiveWalkStep(p, xs);
      assert p + xs[1..] == p;
    }
  }

  /** On a list `cell, x0, x1, x2, ...` the live walk keeps `cell, x1, x3, ...`. */
  lemma LiveWalkOfCellList(xs: seq<string>)
    requires NoDup(["cell"] + xs)
    ensures LiveWalk(["cell"] + xs, 0) == ["cell"] + Odds(xs)
  {
    assert "cell" !in xs by {
      forall k | 0 <= k < |xs| ensures xs[k] != "cell" {
        assert (["cell"] + xs)[k + 1] == xs[k] && (["cell"] + xs)[0] == "cell";
      }
    }
    LiveWalkSkips(["cell"], xs);
  }
}
