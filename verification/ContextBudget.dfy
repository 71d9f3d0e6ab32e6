// The context_budget request: ranked hits are taken in order while their estimated tokens fit the budget.
module ContextBudget {
  // What the answer carries of a hit beside its text and tokens.
  datatype Hit<P> = Hit(text: string, rest: P)

  datatype Taken<P> = Taken(hit: Hit<P>, tokens: nat)

  // About four characters a token, rounded up.
  function Approximate(text: string): (tokens: nat)
    ensures 4 * tokens - 4 < |text| <= 4 * tokens
  {
    if text == "" then 0 else (|text| + 3) / 4
  }

  // mask tells of each of the first hits whether it was taken.
  predicate Over<P>(hits: seq<Hit<P>>, mask: seq<bool>, i: nat) {
    i <= |mask| <= |hits|
  }

  // The taken ones of the first i hits, in their order.
  function Chosen<P>(hits: seq<Hit<P>>, mask: seq<bool>, i: nat): seq<Taken<P>>
    requires Over(hits, mask, i)
  {
    if i == 0 then []
    else
      Chosen(hits, mask, i - 1) +
      if mask[i - 1] then [Taken(hits[i - 1], Approximate(hits[i - 1].text))] else []
  }

  function Spent<P>(hits: seq<Hit<P>>, mask: seq<bool>, i: nat): nat
    requires Over(hits, mask, i)
  {
    if i == 0 then 0
    else Spent(hits, mask, i - 1) + if mask[i - 1] then Approximate(hits[i - 1].text) else 0
  }

  predicate Fits<P>(hits: seq<Hit<P>>, mask: seq<bool>, maxTokens: int, i: nat)
    requires Over(hits, mask, i) && i < |hits|
  {
    Spent(hits, mask, i) + Approximate(hits[i].text) <= maxTokens
  }

  // Something has been taken and the budget is used up.
  predicate Full<P>(hits: seq<Hit<P>>, mask: seq<bool>, maxTokens: int, i: nat)
    requires Over(hits, mask, i)
  {
    true in mask[..i] && Spent(hits, mask, i) >= maxTokens
  }

  // Each hit is taken exactly when it fits beside the hits taken before it, until the budget is used up.
  ghost predicate Greedy<P>(hits: seq<Hit<P>>, mask: seq<bool>, maxTokens: int) {
    && |mask| <= |hits|
    && (forall i :: 0 <= i < |mask| ==> (mask[i] <==> Fits(hits, mask, maxTokens, i) && !Full(hits, mask, maxTokens, i)))
  }

  lemma {:induction false} Extends<P>(hits: seq<Hit<P>>, mask: seq<bool>, more: seq<bool>, i: nat)
    requires i <= |mask| && |mask + more| <= |hits|
    ensures Chosen(hits, mask + more, i) == Chosen(hits, mask, i)
    ensures Spent(hits, mask + more, i) == Spent(hits, mask, i)
  {
    if i > 0 {
      Extends(hits, mask, more, i - 1);
    }
  }

  lemma GreedyNext<P>(hits: seq<Hit<P>>, mask: seq<bool>, maxTokens: int, taken: bool)
    requires Greedy(hits, mask, maxTokens) && |mask| < |hits|
    requires taken <==> Fits(hits, mask, maxTokens, |mask|) && !Full(hits, mask, maxTokens, |mask|)
    ensures Greedy(hits, mask + [taken], maxTokens)
    ensures Chosen(hits, mask + [taken], |mask| + 1) ==
      Chosen(hits, mask, |mask|) + if taken then [Taken(hits[|mask|], Approximate(hits[|mask|].text))] else []
    ensures Spent(hits, mask + [taken], |mask| + 1) ==
      Spent(hits, mask, |mask|) + if taken then Approximate(hits[|mask|].text) else 0
  {
    var next := mask + [taken];
    forall i | 0 <= i < |next| ensures next[i] <==> Fits(hits, next, maxTokens, i) && !Full(hits, next, maxTokens, i) {
      Extends(hits, mask, [taken], i);
      assert next[..i] == mask[..i];
    }
    Extends(hits, mask, [taken], |mask|);
  }

  // The greedy choice among the first n hits.
  function Picks<P>(hits: seq<Hit<P>>, maxTokens: int, n: nat): (mask: seq<bool>)
    requires n <= |hits|
    ensures |mask| == n
  {
    if n == 0 then []
    else
      var mask := Picks(hits, maxTokens, n - 1);
      mask + [Fits(hits, mask, maxTokens, n - 1) && !Full(hits, mask, maxTokens, n - 1)]
  }

  lemma {:induction false} PicksAreGreedy<P>(hits: seq<Hit<P>>, maxTokens: int, n: nat)
    requires n <= |hits|
    ensures Greedy(hits, Picks(hits, maxTokens, n), maxTokens)
  {
    hide Fits, Full, Chosen, Spent;
    if n > 0 {
      PicksAreGreedy(hits, maxTokens, n - 1);
      var mask := Picks(hits, maxTokens, n - 1);
      GreedyNext(hits, mask, maxTokens, Fits(hits, mask, maxTokens, n - 1) && !Full(hits, mask, maxTokens, n - 1));
    }
  }

  method FillBudget<P>(hits: seq<Hit<P>>, maxTokens: int) returns (out: seq<Taken<P>>, used: nat)
    ensures out == Chosen(hits, Picks(hits, maxTokens, |hits|), |hits|)
    ensures used == Spent(hits, Picks(hits, maxTokens, |hits|), |hits|)
    ensures exists idx :: Filling(hits, maxTokens, idx, out, used)
  {
    PicksFill(hits, maxTokens);
    hide Chosen, Spent, Greedy, Filling;
    out, used := [], 0;
    Nothing(hits, maxTokens);
    var i := 0;
    while i < |hits|
      invariant i <= |hits|
      invariant out == Chosen(hits, Picks(hits, maxTokens, i), i) && used == Spent(hits, Picks(hits, maxTokens, i), i)
      invariant true in Picks(hits, maxTokens, i) ==> used < maxTokens
    {
      var tokens := Approximate(hits[i].text);
      ghost var mask := Picks(hits, maxTokens, i);
      assert mask[..i] == mask;
      PicksAreGreedy(hits, maxTokens, i);
      GreedyNext(hits, mask, maxTokens, used + tokens <= maxTokens);
      i := i + 1;
      if used + tokens > maxTokens {
        continue;
      }
      out := out + [Taken(hits[i - 1], tokens)];
      used := used + tokens;
      if used >= maxTokens {
        assert Picks(hits, maxTokens, i)[i - 1] && Picks(hits, maxTokens, i)[..i] == Picks(hits, maxTokens, i);
        RestSkipped(hits, maxTokens, i, |hits|);
        break;
      }
    }
  }

  lemma Nothing<P>(hits: seq<Hit<P>>, maxTokens: int)
    ensures Chosen(hits, Picks(hits, maxTokens, 0), 0) == [] && Spent(hits, Picks(hits, maxTokens, 0), 0) == 0
  {
  }

  // Once the budget is used up, leaving the loop takes what going on would.
  lemma {:induction false} RestSkipped<P>(hits: seq<Hit<P>>, maxTokens: int, i: nat, n: nat)
    requires i <= n <= |hits| && Full(hits, Picks(hits, maxTokens, i), maxTokens, i)
    ensures Full(hits, Picks(hits, maxTokens, n), maxTokens, n)
    ensures Chosen(hits, Picks(hits, maxTokens, n), n) == Chosen(hits, Picks(hits, maxTokens, i), i)
    ensures Spent(hits, Picks(hits, maxTokens, n), n) == Spent(hits, Picks(hits, maxTokens, i), i)
    decreases n
  {
    hide Chosen, Spent, Fits, Full;
    if i < n {
      var mask := Picks(hits, maxTokens, n - 1);
      RestSkipped(hits, maxTokens, i, n - 1);
      PicksAreGreedy(hits, maxTokens, n - 1);
      GreedyNext(hits, mask, maxTokens, false);
      FullNext(hits, mask, maxTokens);
    }
  }

  lemma FullNext<P>(hits: seq<Hit<P>>, mask: seq<bool>, maxTokens: int)
    requires Over(hits, mask + [false], |mask| + 1) && Full(hits, mask, maxTokens, |mask|)
    ensures Full(hits, mask + [false], maxTokens, |mask| + 1)
  {
    Extends(hits, mask, [false], |mask|);
    assert mask[..|mask|] == mask && (mask + [false])[..|mask| + 1] == mask + [false];
    assert true in mask + [false];
  }

  // ---- what a greedy choice is good for ----

  lemma {:induction false} SpentGrows<P>(hits: seq<Hit<P>>, mask: seq<bool>, i: nat, k: nat)
    requires i <= k && Over(hits, mask, k)
    ensures Spent(hits, mask, i) <= Spent(hits, mask, k)
  {
    if i < k {
      SpentGrows(hits, mask, i, k - 1);
    }
  }

  lemma {:induction false} WithinBudgetUpTo<P>(hits: seq<Hit<P>>, mask: seq<bool>, maxTokens: int, i: nat)
    requires Greedy(hits, mask, maxTokens) && i <= |mask|
    ensures maxTokens >= 0 ==> Spent(hits, mask, i) <= maxTokens
    ensures maxTokens < 0 ==> Chosen(hits, mask, i) == []
  {
    if i > 0 {
      WithinBudgetUpTo(hits, mask, maxTokens, i - 1);
      assert mask[i - 1] ==> Fits(hits, mask, maxTokens, i - 1);
    }
  }

  // The tokens taken stay within a budget that is not negative, a negative one takes nothing, and no omitted
  // hit with a text would fit beside the taken ones.
  lemma GreedyFillsTheBudget<P>(hits: seq<Hit<P>>, mask: seq<bool>, maxTokens: int)
    requires |mask| == |hits| && Greedy(hits, mask, maxTokens)
    ensures maxTokens >= 0 ==> Spent(hits, mask, |hits|) <= maxTokens
    ensures maxTokens < 0 ==> Chosen(hits, mask, |hits|) == []
    ensures forall i :: 0 <= i < |hits| && !mask[i] && hits[i].text != "" ==>
      Spent(hits, mask, |hits|) + Approximate(hits[i].text) > maxTokens
  {
    WithinBudgetUpTo(hits, mask, maxTokens, |hits|);
    forall i | 0 <= i < |hits| && !mask[i] && hits[i].text != ""
      ensures Spent(hits, mask, |hits|) + Approximate(hits[i].text) > maxTokens
    {
      SpentGrows(hits, mask, i, |hits|);
      assert !Fits(hits, mask, maxTokens, i) || Full(hits, mask, maxTokens, i);
    }
  }

  lemma SameView<P>(hits: seq<Hit<P>>, a: seq<bool>, b: seq<bool>, maxTokens: int, i: nat)
    requires Over(hits, a, i) && Over(hits, b, i) && i < |hits|
    requires a[..i] == b[..i] && Spent(hits, a, i) == Spent(hits, b, i)
    ensures Fits(hits, a, maxTokens, i) == Fits(hits, b, maxTokens, i)
    ensures Full(hits, a, maxTokens, i) == Full(hits, b, maxTokens, i)
  {
  }

  lemma {:induction false} SameUpTo<P>(hits: seq<Hit<P>>, a: seq<bool>, b: seq<bool>, maxTokens: int, i: nat)
    requires |a| == |b| && Greedy(hits, a, maxTokens) && Greedy(hits, b, maxTokens) && i <= |a|
    ensures a[..i] == b[..i] && Spent(hits, a, i) == Spent(hits, b, i)
  {
    hide Fits, Full, Approximate;
    if i > 0 {
      SameUpTo(hits, a, b, maxTokens, i - 1);
      SameView(hits, a, b, maxTokens, i - 1);
      assert a[..i] == a[..i - 1] + [a[i - 1]] && b[..i] == b[..i - 1] + [b[i - 1]];
    }
  }

  // There is only one greedy choice.
  lemma GreedyIsUnique<P>(hits: seq<Hit<P>>, a: seq<bool>, b: seq<bool>, maxTokens: int)
    requires |a| == |b| && Greedy(hits, a, maxTokens) && Greedy(hits, b, maxTokens)
    ensures a == b
  {
    SameUpTo(hits, a, b, maxTokens, |a|);
    assert a[..|a|] == a && b[..|b|] == b;
  }

  // ---- what the answer is ----

  ghost function Tokens<P>(out: seq<Taken<P>>): nat {
    if out == [] then 0 else Tokens(out[..|out| - 1]) + out[|out| - 1].tokens
  }

  // The answer is hits in their order, idx their places, each with the least number of four-character tokens that
  // cover its text; their sum stays in the budget, and no other hit with a text would still fit.
  ghost predicate Filling<P>(hits: seq<Hit<P>>, maxTokens: int, idx: seq<nat>, out: seq<Taken<P>>, used: nat) {
    && |idx| == |out|
    && (forall p, q :: 0 <= p < q < |idx| ==> idx[p] < idx[q])
    && (forall p :: 0 <= p < |idx| ==> TakenFrom(hits, idx[p], out[p]))
    && used == Tokens(out)
    && (maxTokens >= 0 ==> used <= maxTokens)
    && (maxTokens < 0 ==> out == [])
    && (forall k: nat :: k < |hits| && k !in idx && hits[k].text != "" ==> |hits[k].text| > 4 * (maxTokens - used))
  }

  ghost predicate TakenFrom<P>(hits: seq<Hit<P>>, k: nat, taken: Taken<P>) {
    k < |hits| && taken.hit == hits[k] && 4 * taken.tokens - 4 < |hits[k].text| <= 4 * taken.tokens
  }

  lemma TakenIsFrom<P>(hits: seq<Hit<P>>, k: nat)
    requires k < |hits|
    ensures TakenFrom(hits, k, Taken(hits[k], Approximate(hits[k].text)))
  {
  }

  lemma {:induction false} ChosenInOrder<P>(hits: seq<Hit<P>>, mask: seq<bool>, i: nat) returns (idx: seq<nat>)
    requires Over(hits, mask, i)
    ensures var out := Chosen(hits, mask, i);
      && |idx| == |out| && Spent(hits, mask, i) == Tokens(out)
      && (forall p, q :: 0 <= p < q < |idx| ==> idx[p] < idx[q])
      && (forall p :: 0 <= p < |idx| ==> idx[p] < i && TakenFrom(hits, idx[p], out[p]))
    ensures forall k: nat :: k < i && mask[k] ==> k in idx
  {
    hide Approximate, TakenFrom;
    if i == 0 {
      idx := [];
    } else {
      var before := ChosenInOrder(hits, mask, i - 1);
      var out := Chosen(hits, mask, i - 1);
      if mask[i - 1] {
        var last := Taken(hits[i - 1], Approximate(hits[i - 1].text));
        TakenIsFrom(hits, i - 1);
        assert (out + [last])[..|out|] == out;
        idx := before + [i - 1];
      } else {
        assert out + [] == out;
        idx := before;
      }
    }
  }

  lemma PicksFill<P>(hits: seq<Hit<P>>, maxTokens: int)
    ensures var mask := Picks(hits, maxTokens, |hits|);
      exists idx :: Filling(hits, maxTokens, idx, Chosen(hits, mask, |hits|), Spent(hits, mask, |hits|))
  {
    hide Chosen, Spent, Greedy, Picks, Tokens, TakenFrom;
    var mask := Picks(hits, maxTokens, |hits|);
    PicksAreGreedy(hits, maxTokens, |hits|);
    GreedyFillsTheBudget(hits, mask, maxTokens);
    var idx := ChosenInOrder(hits, mask, |hits|);
    assert Filling(hits, maxTokens, idx, Chosen(hits, mask, |hits|), Spent(hits, mask, |hits|));
  }
}
