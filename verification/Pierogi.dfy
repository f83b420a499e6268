/**
 What becomes of the ingredients, in both kitchens: the doughs taken from their buffer are in pierogi or in the hands
 of the consumers, each once, and the pierogi of a kind use up its fillings in the order they were made.
 */
module Pierogi {

  const CONSUMERS: int := 3    // consumer j, from 0 on, makes pierogi of kind j + 1
  const KINDS: int := 4        // the buffers: dough, and the fillings 1 to 3

  datatype Pierog = Pierog(dough: int, filling: int, kind: int)

  /** What a consumer has taken out of the buffers and not used yet. */
  datatype Hand = Hand(filled: bool, filling: int, doughed: bool, dough: int)

  function One(c: bool): nat { if c then 1 else 0 }

  /** How many pierogi are made of dough d. */
  function Uses(made: seq<Pierog>, d: int): nat {
    if made == [] then 0 else Uses(made[..|made| - 1], d) + One(made[|made| - 1].dough == d)
  }

  function HoldsDough(h: Hand, d: int): nat { One(h.doughed && h.dough == d) }

  /** How often dough d is in the hands of the consumers. */
  function InHands(hands: seq<Hand>, d: int): nat
    requires |hands| == CONSUMERS
  {
    HoldsDough(hands[0], d) + HoldsDough(hands[1], d) + HoldsDough(hands[2], d)
  }

  /** The fillings of the pierogi of kind f, in the order of making. */
  function Fillings(made: seq<Pierog>, f: int): seq<int> {
    if made == [] then []
    else
      var p := made[|made| - 1];
      Fillings(made[..|made| - 1], f) + (if p.kind == f then [p.filling] else [])
  }

  /** 0, 1, 2, ... */
  predicate Counted(s: seq<int>, n: int) {
    |s| == n && forall j :: 0 <= j < |s| ==> s[j] == j
  }

  /** A dough that has been taken is in one pieróg or in one hand; no other dough is anywhere. */
  ghost predicate DoughOk(made: seq<Pierog>, hands: seq<Hand>, popped: int) {
    |hands| == CONSUMERS && forall d :: Uses(made, d) + InHands(hands, d) == One(0 <= d < popped)
  }

  /** The fillings taken of kind f are used up in order; the last one may be in its consumer's hand. */
  ghost predicate FillingOk(made: seq<Pierog>, h: Hand, f: int, popped: int) {
    Counted(Fillings(made, f), popped - One(h.filled)) && (h.filled ==> h.filling == popped - 1)
  }

  /** The accounts of the whole kitchen; popped says how many items have been taken from each buffer. */
  ghost predicate Pantry(made: seq<Pierog>, hands: seq<Hand>, popped: seq<int>) {
    && |popped| == KINDS && DoughOk(made, hands, popped[0])
    && forall j :: 0 <= j < CONSUMERS ==> FillingOk(made, hands[j], j + 1, popped[j + 1])
  }

  // ---------------------------------------------------------------- what a consumer does

  lemma InHandsUpdate(hands: seq<Hand>, j: int, h: Hand, d: int)
    requires |hands| == CONSUMERS && 0 <= j < CONSUMERS
    ensures InHands(hands[j := h], d) == InHands(hands, d) - HoldsDough(hands[j], d) + HoldsDough(h, d)
  {
    if j == 0 {} else if j == 1 {} else {}
  }

  lemma UsesAppend(made: seq<Pierog>, p: Pierog, d: int)
    ensures Uses(made + [p], d) == Uses(made, d) + One(p.dough == d)
  {
    assert (made + [p])[..|made|] == made;
  }

  lemma FillingsAppend(made: seq<Pierog>, p: Pierog, f: int)
    ensures Fillings(made + [p], f) == Fillings(made, f) + (if p.kind == f then [p.filling] else [])
  {
    assert (made + [p])[..|made|] == made;
  }

  /** The same ingredients as before; what a field holds that does not count is left open. */
  predicate SameHand(g: Hand, h: Hand) {
    && g.filled == h.filled && (h.filled ==> g.filling == h.filling)
    && g.doughed == h.doughed && (h.doughed ==> g.dough == h.dough)
  }

  lemma HandKept(made: seq<Pierog>, hands: seq<Hand>, popped: seq<int>, j: int, h: Hand)
    requires Pantry(made, hands, popped) && 0 <= j < CONSUMERS && SameHand(hands[j], h)
    ensures Pantry(made, hands[j := h], popped)
  {
    hide Uses, Fillings;
    forall d ensures Uses(made, d) + InHands(hands[j := h], d) == One(0 <= d < popped[0]) {
      InHandsUpdate(hands, j, h, d);
      assert Uses(made, d) + InHands(hands, d) == One(0 <= d < popped[0]);
    }
  }

  /** Taking the next filling. */
  lemma FillingTaken(made: seq<Pierog>, hands: seq<Hand>, popped: seq<int>, j: int, h: Hand)
    requires Pantry(made, hands, popped) && 0 <= j < CONSUMERS && !hands[j].filled && !hands[j].doughed
    requires h.filled && !h.doughed && h.filling == popped[j + 1]
    ensures Pantry(made, hands[j := h], popped[j + 1 := popped[j + 1] + 1])
  {
    hide Uses, Fillings;
    forall d ensures Uses(made, d) + InHands(hands[j := h], d) == One(0 <= d < popped[0]) {
      InHandsUpdate(hands, j, h, d);
      assert Uses(made, d) + InHands(hands, d) == One(0 <= d < popped[0]);
    }
  }

  /** Taking the next dough. */
  lemma DoughTaken(made: seq<Pierog>, hands: seq<Hand>, popped: seq<int>, j: int, h: Hand)
    requires Pantry(made, hands, popped) && 0 <= j < CONSUMERS && !hands[j].doughed && popped[0] >= 0
    requires h.doughed && h.dough == popped[0] && h.filled == hands[j].filled
      && (h.filled ==> h.filling == hands[j].filling)
    ensures Pantry(made, hands[j := h], popped[0 := popped[0] + 1])
  {
    hide Uses, Fillings;
    forall d ensures Uses(made, d) + InHands(hands[j := h], d) == One(0 <= d < popped[0] + 1) {
      InHandsUpdate(hands, j, h, d);
      assert Uses(made, d) + InHands(hands, d) == One(0 <= d < popped[0]);
    }
  }

  /** Making a pieróg of what the consumer holds. */
  lemma PierogMade(made: seq<Pierog>, hands: seq<Hand>, popped: seq<int>, j: int, h: Hand)
    requires Pantry(made, hands, popped) && 0 <= j < CONSUMERS && hands[j].doughed && hands[j].filled
    requires !h.doughed && !h.filled
    ensures Pantry(made + [Pierog(hands[j].dough, hands[j].filling, j + 1)], hands[j := h], popped)
  {
    hide Uses, Fillings;
    var p := Pierog(hands[j].dough, hands[j].filling, j + 1);
    forall d ensures Uses(made + [p], d) + InHands(hands[j := h], d) == One(0 <= d < popped[0]) {
      InHandsUpdate(hands, j, h, d);
      UsesAppend(made, p, d);
      assert Uses(made, d) + InHands(hands, d) == One(0 <= d < popped[0]);
    }
    var g := hands[j := h];
    forall i | 0 <= i < CONSUMERS ensures FillingOk(made + [p], g[i], i + 1, popped[i + 1]) {
      FillingsAppend(made, p, i + 1);
      assert FillingOk(made, hands[i], i + 1, popped[i + 1]);
    }
  }

  /** What consumer j may do: take its next filling or the next dough, make a pieróg of both, or hold what it held. */
  predicate HandStep(j: int, g: Hand, h: Hand, popped: seq<int>, taken: seq<int>, made: seq<Pierog>, now: seq<Pierog>)
    requires 0 <= j < CONSUMERS && |popped| == KINDS
  {
    || (SameHand(g, h) && taken == popped && now == made)
    || (!g.filled && !g.doughed && h.filled && !h.doughed && h.filling == popped[j + 1]
        && taken == popped[j + 1 := popped[j + 1] + 1] && now == made)
    || (!g.doughed && h.doughed && h.dough == popped[0] && h.filled == g.filled && (h.filled ==> h.filling == g.filling)
        && taken == popped[0 := popped[0] + 1] && now == made)
    || (g.doughed && g.filled && !h.doughed && !h.filled
        && taken == popped && now == made + [Pierog(g.dough, g.filling, j + 1)])
  }

  /** The accounts stay right whichever of these it does. */
  lemma HandSteps(made: seq<Pierog>, now: seq<Pierog>, hands: seq<Hand>, j: int, h: Hand, popped: seq<int>,
                  taken: seq<int>)
    requires 0 <= j < CONSUMERS && Pantry(made, hands, popped) && popped[0] >= 0
    requires HandStep(j, hands[j], h, popped, taken, made, now)
    ensures Pantry(now, hands[j := h], taken)
  {
    var g := hands[j];
    hide Pantry;
    if SameHand(g, h) && taken == popped && now == made {
      HandKept(made, hands, popped, j, h);
    } else if g.doughed {
      PierogMade(made, hands, popped, j, h);
    } else if h.doughed {
      DoughTaken(made, hands, popped, j, h);
    } else {
      FillingTaken(made, hands, popped, j, h);
    }
  }

  // ---------------------------------------------------------------- what follows

  lemma {:induction false} UsesOf(made: seq<Pierog>, x: nat)
    requires x < |made|
    ensures Uses(made, made[x].dough) >= 1
    ensures forall y :: x < y < |made| && made[y].dough == made[x].dough ==> Uses(made, made[x].dough) >= 2
  {
    var s := made[..|made| - 1];
    if x < |made| - 1 {
      UsesOf(s, x);
      assert s[x] == made[x];
      forall y | x < y < |made| && made[y].dough == made[x].dough ensures Uses(made, made[x].dough) >= 2 {
        assert y < |s| ==> s[y] == made[y];
      }
    }
  }

  /** A pieróg is made of a dough that was taken, and no two of the same. */
  lemma DoughOnce(made: seq<Pierog>, hands: seq<Hand>, popped: int, x: nat)
    requires DoughOk(made, hands, popped) && x < |made|
    ensures 0 <= made[x].dough < popped
    ensures forall y :: 0 <= y < |made| && y != x ==> made[y].dough != made[x].dough
  {
    UsesOf(made, x);
    forall y | 0 <= y < |made| && y != x ensures made[y].dough != made[x].dough {
      UsesOf(made, y);
      assert Uses(made, made[x].dough) + InHands(hands, made[x].dough) <= 1;
    }
    assert Uses(made, made[x].dough) + InHands(hands, made[x].dough) == One(0 <= made[x].dough < popped);
  }
}
