/**
 * Spawn-position selection.  For each registered spawn point of a type the
 * evaluator tries five offsets (centre, left, up, right, down) and keeps the
 * first one that no nearby character blocks; among the points that yield a
 * position it keeps the one with the lowest score, replacing the kept one
 * only on a strictly lower score, so ties keep the earlier point.
 *
 * World positions are real numbers.  The world's queries (the characters
 * near a point, solidity, distance) are inputs of the model.
 */
module Spawn {
  import opened Wrappers
  import opened MapItems

  datatype Vec = Vec(x: real, y: real)
  {
    function Plus(o: Vec): Vec
    {
      Vec(x + o.x, y + o.y)
    }
  }

  /** A live character: where it is, how much room it takes, its player's team. */
  datatype Character = Character(pos: Vec, proximityRadius: real, team: int)

  /** The queries the evaluator makes of the game world. */
  datatype World = World(
    characters: seq<Character>,      // every live character, in world order
    nearby: Vec -> seq<Character>,   // the characters the world reports within 64 units of a point
    solid: Vec -> bool,              // the collision map's point test
    distance: (Vec, Vec) -> real)

  /** The running state of an evaluation. */
  datatype SpawnEval = SpawnEval(got: bool, score: real, pos: Vec, friendlyTeam: int, randomSpawn: bool)

  /** An evaluation that has found nothing yet. */
  function FreshEval(friendlyTeam: int, randomSpawn: bool): SpawnEval
  {
    SpawnEval(false, 0.0, Vec(0.0, 0.0), friendlyTeam, randomSpawn)
  }

  /** Offsets tried around a spawn point, in order: centre, left, up, right, down. */
  const Offsets: seq<Vec> := [Vec(0.0, 0.0), Vec(-32.0, 0.0), Vec(0.0, -32.0), Vec(32.0, 0.0), Vec(0.0, 32.0)]

  /** Character c rules out position q: q is solid, or q lies within c's proximity radius. */
  predicate Blocks(w: World, c: Character, q: Vec)
  {
    w.solid(q) || w.distance(c.pos, q) <= c.proximityRadius
  }

  /** Offset k of spawn point `base` is blocked by none of the characters near `base`. */
  predicate IsClear(w: World, base: Vec, k: nat)
    requires k < |Offsets|
  {
    var ns := w.nearby(base);
    forall c :: 0 <= c < |ns| ==> !Blocks(w, ns[c], base.Plus(Offsets[k]))
  }

  /** The first clear offset at or after k. */
  function FirstClearFrom(w: World, base: Vec, k: nat): (r: Option<nat>)
    requires k <= |Offsets|
    decreases |Offsets| - k
    ensures r.Some? ==> k <= r.value < |Offsets| && IsClear(w, base, r.value)
    ensures r.Some? ==> forall j :: k <= j < r.value ==> !IsClear(w, base, j)
    ensures r.None? <==> forall j :: k <= j < |Offsets| ==> !IsClear(w, base, j)
  {
    if k == |Offsets| then None
    else if IsClear(w, base, k) then Some(k)
    else FirstClearFrom(w, base, k + 1)
  }

  /** The position spawn point i of `points` offers, if any of its offsets is clear. */
  function Candidate(w: World, points: seq<Vec>, i: nat): Option<Vec>
    requires i < |points|
  {
    match FirstClearFrom(w, points[i], 0)
    case None => None
    case Some(k) => Some(points[i].Plus(Offsets[k]))
  }

  /** A position a spawn point offers is outside every nearby character's radius and, when any character is near, not solid. */
  lemma CandidateIsClear(w: World, points: seq<Vec>, i: nat)
    requires i < |points| && Candidate(w, points, i).Some?
    ensures var q := Candidate(w, points, i).value; var ns := w.nearby(points[i]);
      (forall c :: 0 <= c < |ns| ==> w.distance(ns[c].pos, q) > ns[c].proximityRadius) &&
      (|ns| > 0 ==> !w.solid(q))
  {
    var k := FirstClearFrom(w, points[i], 0).value;
    var ns := w.nearby(points[i]);
    if |ns| > 0 {
      assert !Blocks(w, ns[0], points[i].Plus(Offsets[k]));
    }
  }

  /** Weight of a character's danger: half for a team mate of the friendly team. */
  function Weight(friendlyTeam: int, c: Character): (r: real)
    ensures r == 0.5 || r == 1.0
    ensures r == 0.5 <==> friendlyTeam != -1 && c.team == friendlyTeam
  {
    if friendlyTeam != -1 && c.team == friendlyTeam then 0.5 else 1.0
  }

  /** Danger of a character at distance d: its inverse, or a large constant at distance zero. */
  function Danger(d: real): real
  {
    if d == 0.0 then 1000000000.0 else 1.0 / d
  }

  /** Sum of weighted dangers of the first n characters of the world at position p. */
  function DangerSum(w: World, friendlyTeam: int, p: Vec, n: nat): real
    requires n <= |w.characters|
  {
    if n == 0 then 0.0
    else
      var c := w.characters[n - 1];
      DangerSum(w, friendlyTeam, p, n - 1) + Weight(friendlyTeam, c) * Danger(w.distance(p, c.pos))
  }

  /** The score of candidate position p of spawn point i: a random number or the danger sum. */
  function Score(eval: SpawnEval, w: World, random: nat -> int, i: nat, p: Vec): real
  {
    if eval.randomSpawn then random(i) as real else DangerSum(w, eval.friendlyTeam, p, |w.characters|)
  }

  lemma DangerDecreasing(d1: real, d2: real)
    requires 0.0 < d2 <= d1
    ensures 0.0 < Danger(d1) <= Danger(d2)
  {
    assert d1 * (1.0 / d1) == 1.0;
    assert d2 * (1.0 / d2) == 1.0;
    assert (1.0 / d1) * d2 <= (1.0 / d1) * d1;
  }

  /** A position farther from every character scores no more than a closer one. */
  lemma {:induction false} FartherIsSafer(w: World, friendlyTeam: int, p: Vec, q: Vec, n: nat)
    requires n <= |w.characters|
    requires forall k :: 0 <= k < n ==> 0.0 < w.distance(q, w.characters[k].pos) <= w.distance(p, w.characters[k].pos)
    ensures 0.0 <= DangerSum(w, friendlyTeam, p, n) <= DangerSum(w, friendlyTeam, q, n)
  {
    if n > 0 {
      FartherIsSafer(w, friendlyTeam, p, q, n - 1);
      var c := w.characters[n - 1];
      DangerDecreasing(w.distance(p, c.pos), w.distance(q, c.pos));
    }
  }

  /** A team mate of the friendly team weighs half as much as any other character at the same distance. */
  lemma {:induction false} TeamMateHalvesDanger(w: World, friendlyTeam: int, p: Vec, n: nat, k: nat)
    requires k < n <= |w.characters|
    requires friendlyTeam != -1 && w.characters[k].team == friendlyTeam
    ensures var w' := w.(characters := w.characters[k := w.characters[k].(team := friendlyTeam + 1)]);
      DangerSum(w', friendlyTeam, p, n) - DangerSum(w, friendlyTeam, p, n) ==
        0.5 * Danger(w.distance(p, w.characters[k].pos))
  {
    var w' := w.(characters := w.characters[k := w.characters[k].(team := friendlyTeam + 1)]);
    if n - 1 == k {
      SamePrefixSameSum(w, w', friendlyTeam, p, n - 1);
    } else {
      TeamMateHalvesDanger(w, friendlyTeam, p, n - 1, k);
    }
  }

  lemma {:induction false} SamePrefixSameSum(w: World, w': World, friendlyTeam: int, p: Vec, n: nat)
    requires n <= |w.characters| && n <= |w'.characters|
    requires w'.distance == w.distance
    requires forall j :: 0 <= j < n ==> w'.characters[j] == w.characters[j]
    ensures DangerSum(w', friendlyTeam, p, n) == DangerSum(w, friendlyTeam, p, n)
  {
    if n > 0 {
      SamePrefixSameSum(w, w', friendlyTeam, p, n - 1);
    }
  }

  /** One enemy at distance 100 from one candidate and 10 from another: scores 0.01 and 0.1. */
  lemma OneEnemyExample(w: World, friendlyTeam: int, p: Vec, q: Vec)
    requires |w.characters| == 1 && w.characters[0].team != friendlyTeam
    requires w.distance(p, w.characters[0].pos) == 100.0 && w.distance(q, w.characters[0].pos) == 10.0
    ensures DangerSum(w, friendlyTeam, p, 1) == 0.01
    ensures DangerSum(w, friendlyTeam, q, 1) == 0.1
  {
  }

  /** Clear-offset search for one spawn point: the first of the five offsets no nearby character blocks. */
  method ClearOffset(w: World, base: Vec) returns (r: Option<nat>)
    ensures r == FirstClearFrom(w, base, 0)
  {
    var ns := w.nearby(base);
    var result := -1;
    var index := 0;
    while index < |Offsets| && result == -1
      invariant 0 <= index <= |Offsets|
      invariant result == -1 ==> forall j :: 0 <= j < index ==> !IsClear(w, base, j)
      invariant result != -1 ==> result == index - 1 && IsClear(w, base, result)
      invariant result != -1 ==> forall j :: 0 <= j < result ==> !IsClear(w, base, j)
    {
      result := index;
      var q := base.Plus(Offsets[index]);
      var c := 0;
      while c < |ns|
        invariant 0 <= c <= |ns|
        invariant result == index ==> forall d :: 0 <= d < c ==> !Blocks(w, ns[d], q)
        invariant !IsClear(w, base, index) || result == index
        invariant result == index || result == -1
        invariant forall j :: 0 <= j < index ==> !IsClear(w, base, j)
      {
        if w.solid(q) || w.distance(ns[c].pos, q) <= ns[c].proximityRadius {
          assert Blocks(w, ns[c], q);
          result := -1;
          break;
        }
        c := c + 1;
      }
      index := index + 1;
    }
    if result == -1 {
      r := None;
    } else {
      r := Some(result);
    }
  }

  /** The weighted danger sum at p over all live characters. */
  method EvaluateSpawnPos(eval: SpawnEval, w: World, p: Vec) returns (score: real)
    ensures score == DangerSum(w, eval.friendlyTeam, p, |w.characters|)
  {
    score := 0.0;
    for n := 0 to |w.characters|
      invariant score == DangerSum(w, eval.friendlyTeam, p, n)
    {
      var c := w.characters[n];
      var scoreMod := 1.0;
      if eval.friendlyTeam != -1 && c.team == eval.friendlyTeam {
        scoreMod := 0.5;
      }
      var d := w.distance(p, c.pos);
      score := score + scoreMod * (if d == 0.0 then 1000000000.0 else 1.0 / d);
    }
  }

  /** No point offers a position that beats what `eval` already holds. */
  ghost predicate NothingBetter(eval: SpawnEval, w: World, points: seq<Vec>, random: nat -> int, n: nat)
    requires n <= |points|
  {
    forall j :: 0 <= j < n && Candidate(w, points, j).Some? ==>
      eval.got && Score(eval, w, random, j, Candidate(w, points, j).value) >= eval.score
  }

  /** Spawn point i offers the best position: it beats `eval`, it is strictly better than every
      earlier candidate and no later candidate (below n) is strictly better. */
  ghost predicate BestPoint(eval: SpawnEval, w: World, points: seq<Vec>, random: nat -> int, i: nat, n: nat)
    requires i < n <= |points|
  {
    Candidate(w, points, i).Some? &&
    var s := Score(eval, w, random, i, Candidate(w, points, i).value);
    (eval.got ==> s < eval.score) &&
    (forall j :: 0 <= j < i && Candidate(w, points, j).Some? ==>
      Score(eval, w, random, j, Candidate(w, points, j).value) > s) &&
    (forall j :: i < j < n && Candidate(w, points, j).Some? ==>
      Score(eval, w, random, j, Candidate(w, points, j).value) >= s)
  }

  /** r holds the position and score of best point i. */
  ghost predicate KeptPoint(eval: SpawnEval, r: SpawnEval, w: World, points: seq<Vec>, random: nat -> int, i: nat, n: nat)
    requires i < n <= |points|
  {
    BestPoint(eval, w, points, random, i, n) &&
    r == eval.(got := true, score := Score(eval, w, random, i, Candidate(w, points, i).value),
               pos := Candidate(w, points, i).value)
  }

  /** The loop state of EvaluateSpawnType after the first n points. */
  ghost predicate EvalInvariant(eval: SpawnEval, r: SpawnEval, w: World, points: seq<Vec>, random: nat -> int, best: int, n: nat)
    requires n <= |points|
  {
    (best == -1 && r == eval && NothingBetter(eval, w, points, random, n)) ||
    (0 <= best < n && KeptPoint(eval, r, w, points, random, best, n))
  }

  /** A candidate strictly better than the kept one replaces it. */
  lemma ReplaceStep(eval: SpawnEval, r: SpawnEval, w: World, points: seq<Vec>, random: nat -> int, best: int, i: nat, s: real)
    requires i < |points| && EvalInvariant(eval, r, w, points, random, best, i)
    requires Candidate(w, points, i).Some? && s == Score(eval, w, random, i, Candidate(w, points, i).value)
    requires !r.got || r.score > s
    ensures EvalInvariant(eval, r.(got := true, score := s, pos := Candidate(w, points, i).value), w, points, random, i, i + 1)
  {
  }

  /** A point with no candidate, or with one no better than the kept one, changes nothing. */
  lemma KeepStep(eval: SpawnEval, r: SpawnEval, w: World, points: seq<Vec>, random: nat -> int, best: int, i: nat)
    requires i < |points| && EvalInvariant(eval, r, w, points, random, best, i)
    requires Candidate(w, points, i).Some? ==> r.got && r.score <= Score(eval, w, random, i, Candidate(w, points, i).value)
    ensures EvalInvariant(eval, r, w, points, random, best, i + 1)
  {
  }

  /**
   * Evaluates every spawn point of one type against `eval`.  The result
   * keeps `eval` when no point offers a strictly better position; otherwise
   * it holds the first point with the lowest score.
   */
  method EvaluateSpawnType(eval: SpawnEval, w: World, points: seq<Vec>, random: nat -> int) returns (r: SpawnEval)
    ensures r.friendlyTeam == eval.friendlyTeam && r.randomSpawn == eval.randomSpawn
    ensures r.got <==> eval.got || exists i :: 0 <= i < |points| && Candidate(w, points, i).Some?
    ensures NothingBetter(eval, w, points, random, |points|) ==> r == eval
    ensures !NothingBetter(eval, w, points, random, |points|) ==>
      exists i :: 0 <= i < |points| && KeptPoint(eval, r, w, points, random, i, |points|)
  {
    r := eval;
    ghost var best := -1;
    for i := 0 to |points|
      invariant EvalInvariant(eval, r, w, points, random, best, i)
    {
      var k := ClearOffset(w, points[i]);
      if k.None? {
        KeepStep(eval, r, w, points, random, best, i);
        continue;
      }
      var p := points[i].Plus(Offsets[k.value]);
      var s: real;
      if r.randomSpawn {
        s := random(i) as real;
      } else {
        s := EvaluateSpawnPos(r, w, p);
      }
      if !r.got || r.score > s {
        ReplaceStep(eval, r, w, points, random, best, i, s);
        r := r.(got := true, score := s, pos := p);
        best := i;
      } else {
        KeepStep(eval, r, w, points, random, best, i);
      }
    }
    if best != -1 {
      assert Candidate(w, points, best).Some?;
    } else if !eval.got {
      forall i | 0 <= i < |points| ensures Candidate(w, points, i).None? {
      }
    }
  }
}
