/**
 * The inactivity check the controller runs every tick.  It scans the player
 * slots in order; a present, non-spectator, unauthenticated player whose
 * last action is more than KickTime minutes old is moved to the spectators
 * (policy 0), moved or kicked depending on how many spectators there are
 * at that moment (policy 1), or kicked (policy 2).  Moves take effect at
 * once, so later decisions in the same scan see them; a kick is a request
 * to the server and leaves the slot as it is.
 */
module Inactivity {
  import opened Wrappers
  import opened MapItems

  datatype Player = Player(team: int, lastActionTick: int)

  /** The configuration the check reads: minutes before acting, policy, reserved spectator slots. */
  datatype InactivityConfig = InactivityConfig(kickTime: int, policy: int, spectatorSlots: int)

  /** A request to the server to disconnect a client. */
  datatype Kick = Kick(client: nat, reason: string)

  const InactivityReason := "Kicked for inactivity"

  /** The player in slot i is one the check acts on. */
  predicate Idle(ps: seq<Option<Player>>, authed: seq<bool>, i: nat, tick: int, tickSpeed: int, kickTime: int)
    requires i < |ps| && i < |authed|
  {
    ps[i].Some? && ps[i].value.team != TeamSpectators && !authed[i] &&
    tick > ps[i].value.lastActionTick + kickTime * tickSpeed * 60
  }

  predicate IsSpectator(p: Option<Player>)
  {
    p.Some? && p.value.team == TeamSpectators
  }

  /** Number of present players on the spectator team. */
  function SpectatorCount(ps: seq<Option<Player>>): nat
  {
    if |ps| == 0 then 0
    else SpectatorCount(ps[..|ps| - 1]) + (if IsSpectator(ps[|ps| - 1]) then 1 else 0)
  }

  function ToSpectators(p: Option<Player>): Option<Player>
    requires p.Some?
  {
    Some(p.value.(team := TeamSpectators))
  }

  /** Slots and the kicks requested so far. */
  datatype ScanState = ScanState(players: seq<Option<Player>>, kicks: seq<Kick>)

  /** The decision for slot i, taken on the current slots. */
  function Step(st: ScanState, authed: seq<bool>, i: nat, tick: int, tickSpeed: int, cfg: InactivityConfig): ScanState
    requires i < |st.players| && i < |authed|
  {
    if !Idle(st.players, authed, i, tick, tickSpeed, cfg.kickTime) then st
    else if cfg.policy == 0 then st.(players := st.players[i := ToSpectators(st.players[i])])
    else if cfg.policy == 1 then
      if SpectatorCount(st.players) >= cfg.spectatorSlots then st.(kicks := st.kicks + [Kick(i, InactivityReason)])
      else st.(players := st.players[i := ToSpectators(st.players[i])])
    else if cfg.policy == 2 then st.(kicks := st.kicks + [Kick(i, InactivityReason)])
    else st
  }

  /** The state after deciding slots 0 .. n-1. */
  function Scan(ps: seq<Option<Player>>, authed: seq<bool>, tick: int, tickSpeed: int, cfg: InactivityConfig, n: nat): (r: ScanState)
    requires n <= |ps| && |authed| == |ps|
    ensures |r.players| == |ps|
  {
    if n == 0 then ScanState(ps, [])
    else Step(Scan(ps, authed, tick, tickSpeed, cfg, n - 1), authed, n - 1, tick, tickSpeed, cfg)
  }

  /** The whole check: nothing happens unless the kick time is positive. */
  function InactivityCheck(ps: seq<Option<Player>>, authed: seq<bool>, tick: int, tickSpeed: int, cfg: InactivityConfig): ScanState
    requires |authed| == |ps|
  {
    if cfg.kickTime > 0 then Scan(ps, authed, tick, tickSpeed, cfg, |ps|) else ScanState(ps, [])
  }

  /** Changing one slot changes the spectator count by what that slot contributes. */
  lemma {:induction false} SpectatorCountUpdate(ps: seq<Option<Player>>, i: nat, v: Option<Player>)
    requires i < |ps|
    ensures SpectatorCount(ps[i := v]) + (if IsSpectator(ps[i]) then 1 else 0) ==
            SpectatorCount(ps) + (if IsSpectator(v) then 1 else 0)
  {
    var qs := ps[i := v];
    if i < |ps| - 1 {
      assert qs[..|qs| - 1] == ps[..|ps| - 1][i := v];
      SpectatorCountUpdate(ps[..|ps| - 1], i, v);
    } else {
      assert qs[..|qs| - 1] == ps[..|ps| - 1];
    }
  }

  /**
   * One decision touches slot i only: the slot is left alone, or its idle
   * player is moved, or a kick naming i is appended; policy 0 never kicks,
   * policy 2 never moves, and policies 0 to 2 act on every idle slot.
   */
  lemma StepEffect(st: ScanState, authed: seq<bool>, i: nat, tick: int, tickSpeed: int, cfg: InactivityConfig)
    requires i < |st.players| && i < |authed|
    ensures var r := Step(st, authed, i, tick, tickSpeed, cfg);
      var idle := Idle(st.players, authed, i, tick, tickSpeed, cfg.kickTime);
      |r.players| == |st.players| &&
      (forall j :: 0 <= j < |st.players| && j != i ==> r.players[j] == st.players[j]) &&
      (r == st ||
       (idle && r.kicks == st.kicks && r.players[i] == ToSpectators(st.players[i]) && cfg.policy != 2) ||
       (idle && r.players == st.players && r.kicks == st.kicks + [Kick(i, InactivityReason)] && cfg.policy != 0)) &&
      (idle && 0 <= cfg.policy <= 2 ==> r != st)
  {
    if Idle(st.players, authed, i, tick, tickSpeed, cfg.kickTime) {
      assert ToSpectators(st.players[i]).value.team != st.players[i].value.team;
    }
  }

  /**
   * r is a state the scan can be in after deciding slots 0 .. n-1: every
   * slot is either untouched or, when its player was idle, moved to the
   * spectators; slots past n are untouched; every kick names an idle slot
   * below n whose player stays as it was, in increasing slot order.
   */
  ghost predicate Shaped(ps: seq<Option<Player>>, authed: seq<bool>, tick: int, tickSpeed: int, cfg: InactivityConfig, n: nat, r: ScanState)
    requires n <= |ps| && |authed| == |ps| && |r.players| == |ps|
  {
    (forall j :: n <= j < |ps| ==> r.players[j] == ps[j]) &&
    (forall j :: 0 <= j < n && !Idle(ps, authed, j, tick, tickSpeed, cfg.kickTime) ==> r.players[j] == ps[j]) &&
    (forall j :: 0 <= j < n && Idle(ps, authed, j, tick, tickSpeed, cfg.kickTime) ==>
      r.players[j] == ps[j] || r.players[j] == ToSpectators(ps[j])) &&
    (forall k :: 0 <= k < |r.kicks| ==>
      r.kicks[k].client < n && Idle(ps, authed, r.kicks[k].client, tick, tickSpeed, cfg.kickTime) &&
      r.players[r.kicks[k].client] == ps[r.kicks[k].client] && r.kicks[k].reason == InactivityReason) &&
    (forall k, l :: 0 <= k < l < |r.kicks| ==> r.kicks[k].client < r.kicks[l].client)
  }

  /** Deciding slot n-1 as StepEffect allows turns a state Shaped for n-1 into one Shaped for n. */
  lemma ShapeStep(ps: seq<Option<Player>>, authed: seq<bool>, tick: int, tickSpeed: int, cfg: InactivityConfig, n: nat,
                  prev: ScanState, r: ScanState)
    requires 0 < n <= |ps| && |authed| == |ps| && |prev.players| == |ps| && |r.players| == |ps|
    requires Shaped(ps, authed, tick, tickSpeed, cfg, n - 1, prev)
    requires forall j :: 0 <= j < |ps| && j != n - 1 ==> r.players[j] == prev.players[j]
    requires (r.players[n - 1] == ps[n - 1] && r.kicks == prev.kicks) ||
      (Idle(ps, authed, n - 1, tick, tickSpeed, cfg.kickTime) &&
       r.players[n - 1] == ToSpectators(ps[n - 1]) && r.kicks == prev.kicks) ||
      (Idle(ps, authed, n - 1, tick, tickSpeed, cfg.kickTime) &&
       r.players[n - 1] == ps[n - 1] && r.kicks == prev.kicks + [Kick(n - 1, InactivityReason)])
    ensures Shaped(ps, authed, tick, tickSpeed, cfg, n, r)
  {
  }

  /** Every prefix of the scan ends in a state Shaped for its bound. */
  lemma {:induction false} ScanShape(ps: seq<Option<Player>>, authed: seq<bool>, tick: int, tickSpeed: int, cfg: InactivityConfig, n: nat)
    requires n <= |ps| && |authed| == |ps|
    ensures Shaped(ps, authed, tick, tickSpeed, cfg, n, Scan(ps, authed, tick, tickSpeed, cfg, n))
  {
    if n > 0 {
      ScanShape(ps, authed, tick, tickSpeed, cfg, n - 1);
      var prev := Scan(ps, authed, tick, tickSpeed, cfg, n - 1);
      var r := Scan(ps, authed, tick, tickSpeed, cfg, n);
      assert prev.players[n - 1] == ps[n - 1];
      assert r == Step(prev, authed, n - 1, tick, tickSpeed, cfg);
      StepEffect(prev, authed, n - 1, tick, tickSpeed, cfg);
      ShapeStep(ps, authed, tick, tickSpeed, cfg, n, prev, r);
    }
  }

  /** An idle slot is dealt with exactly once under policies 0, 1 and 2: moved or kicked, never both. */
  lemma {:induction false} IdleSlotsHandled(ps: seq<Option<Player>>, authed: seq<bool>, tick: int, tickSpeed: int, cfg: InactivityConfig, n: nat)
    requires n <= |ps| && |authed| == |ps|
    requires 0 <= cfg.policy <= 2
    ensures var r := Scan(ps, authed, tick, tickSpeed, cfg, n);
      forall j :: 0 <= j < n && Idle(ps, authed, j, tick, tickSpeed, cfg.kickTime) ==>
        ((r.players[j] == ToSpectators(ps[j])) != (exists k :: 0 <= k < |r.kicks| && r.kicks[k].client == j))
  {
    if n > 0 {
      IdleSlotsHandled(ps, authed, tick, tickSpeed, cfg, n - 1);
      var prev := Scan(ps, authed, tick, tickSpeed, cfg, n - 1);
      var r := Scan(ps, authed, tick, tickSpeed, cfg, n);
      assert prev.players[n - 1] == ps[n - 1] && forall k :: 0 <= k < |prev.kicks| ==> prev.kicks[k].client < n - 1 by {
        ScanShape(ps, authed, tick, tickSpeed, cfg, n - 1);
      }
      assert (forall j :: 0 <= j < n - 1 ==> r.players[j] == prev.players[j]) &&
        (r.kicks == prev.kicks || r.kicks == prev.kicks + [Kick(n - 1, InactivityReason)]) &&
        (Idle(ps, authed, n - 1, tick, tickSpeed, cfg.kickTime) ==>
          (r.kicks == prev.kicks && r.players[n - 1] == ToSpectators(ps[n - 1])) ||
          (r.kicks == prev.kicks + [Kick(n - 1, InactivityReason)] && r.players[n - 1] == ps[n - 1])) by {
        assert r == Step(prev, authed, n - 1, tick, tickSpeed, cfg);
        StepEffect(prev, authed, n - 1, tick, tickSpeed, cfg);
      }
      HandledStep(ps, authed, tick, tickSpeed, cfg.kickTime, n, prev, r);
    }
  }

  /**
   * If the idle slots below n-1 were each moved or kicked, and deciding slot
   * n-1 moved or kicked it when idle and touched nothing else, the idle
   * slots below n are each moved or kicked.
   */
  lemma HandledStep(ps: seq<Option<Player>>, authed: seq<bool>, tick: int, tickSpeed: int, kickTime: int, n: nat,
                    prev: ScanState, r: ScanState)
    requires 0 < n <= |ps| && |authed| == |ps| && |prev.players| == |ps| && |r.players| == |ps|
    requires forall j :: 0 <= j < n - 1 && Idle(ps, authed, j, tick, tickSpeed, kickTime) ==>
      ((prev.players[j] == ToSpectators(ps[j])) != (exists k :: 0 <= k < |prev.kicks| && prev.kicks[k].client == j))
    requires forall k :: 0 <= k < |prev.kicks| ==> prev.kicks[k].client < n - 1
    requires forall j :: 0 <= j < n - 1 ==> r.players[j] == prev.players[j]
    requires r.kicks == prev.kicks || r.kicks == prev.kicks + [Kick(n - 1, InactivityReason)]
    requires Idle(ps, authed, n - 1, tick, tickSpeed, kickTime) ==>
      (r.kicks == prev.kicks && r.players[n - 1] == ToSpectators(ps[n - 1])) ||
      (r.kicks == prev.kicks + [Kick(n - 1, InactivityReason)] && r.players[n - 1] == ps[n - 1])
    ensures forall j :: 0 <= j < n && Idle(ps, authed, j, tick, tickSpeed, kickTime) ==>
      ((r.players[j] == ToSpectators(ps[j])) != (exists k :: 0 <= k < |r.kicks| && r.kicks[k].client == j))
  {
    forall j | 0 <= j < n && Idle(ps, authed, j, tick, tickSpeed, kickTime)
      ensures (r.players[j] == ToSpectators(ps[j])) != (exists k :: 0 <= k < |r.kicks| && r.kicks[k].client == j)
    {
      assert ToSpectators(ps[j]) != ps[j];
      if j < n - 1 {
        OlderSlotKicks(prev, r, j, n - 1);
      } else if r.kicks != prev.kicks {
        assert r.kicks[|r.kicks| - 1].client == j;
      } else {
        assert forall k :: 0 <= k < |r.kicks| ==> r.kicks[k].client < j;
      }
    }
  }

  /** A step at slot i keeps the kicks naming an earlier slot j exactly as they were. */
  lemma OlderSlotKicks(prev: ScanState, r: ScanState, j: nat, i: nat)
    requires j < i
    requires r.kicks == prev.kicks || r.kicks == prev.kicks + [Kick(i, InactivityReason)]
    ensures (exists k :: 0 <= k < |r.kicks| && r.kicks[k].client == j) <==>
            (exists k :: 0 <= k < |prev.kicks| && prev.kicks[k].client == j)
  {
    if exists k :: 0 <= k < |r.kicks| && r.kicks[k].client == j {
      var k :| 0 <= k < |r.kicks| && r.kicks[k].client == j;
      assert k < |prev.kicks| && prev.kicks[k] == r.kicks[k];
    }
    if exists k :: 0 <= k < |prev.kicks| && prev.kicks[k].client == j {
      var k :| 0 <= k < |prev.kicks| && prev.kicks[k].client == j;
      assert r.kicks[k] == prev.kicks[k];
    }
  }

  /** Policy 0 moves exactly the idle players and kicks nobody. */
  lemma PolicyMoveOnly(ps: seq<Option<Player>>, authed: seq<bool>, tick: int, tickSpeed: int, cfg: InactivityConfig)
    requires |authed| == |ps| && cfg.kickTime > 0 && cfg.policy == 0
    ensures var r := InactivityCheck(ps, authed, tick, tickSpeed, cfg);
      r.kicks == [] &&
      forall j :: 0 <= j < |ps| ==>
        r.players[j] == if Idle(ps, authed, j, tick, tickSpeed, cfg.kickTime) then ToSpectators(ps[j]) else ps[j]
  {
    IdleSlotsHandled(ps, authed, tick, tickSpeed, cfg, |ps|);
    ScanShape(ps, authed, tick, tickSpeed, cfg, |ps|);
    NoKicksUnderPolicyZero(ps, authed, tick, tickSpeed, cfg, |ps|);
  }

  lemma {:induction false} NoKicksUnderPolicyZero(ps: seq<Option<Player>>, authed: seq<bool>, tick: int, tickSpeed: int, cfg: InactivityConfig, n: nat)
    requires n <= |ps| && |authed| == |ps| && cfg.policy == 0
    ensures Scan(ps, authed, tick, tickSpeed, cfg, n).kicks == []
  {
    if n > 0 {
      NoKicksUnderPolicyZero(ps, authed, tick, tickSpeed, cfg, n - 1);
    }
  }

  /** Policy 2 kicks exactly the idle players and moves nobody. */
  lemma {:induction false} PolicyKickOnly(ps: seq<Option<Player>>, authed: seq<bool>, tick: int, tickSpeed: int, cfg: InactivityConfig, n: nat)
    requires n <= |ps| && |authed| == |ps| && cfg.policy == 2
    ensures var r := Scan(ps, authed, tick, tickSpeed, cfg, n);
      r.players == ps &&
      forall j :: 0 <= j < n ==>
        (Idle(ps, authed, j, tick, tickSpeed, cfg.kickTime) <==> exists k :: 0 <= k < |r.kicks| && r.kicks[k].client == j)
  {
    if n > 0 {
      PolicyKickOnly(ps, authed, tick, tickSpeed, cfg, n - 1);
      var prev := Scan(ps, authed, tick, tickSpeed, cfg, n - 1);
      var r := Scan(ps, authed, tick, tickSpeed, cfg, n);
      assert forall k :: 0 <= k < |prev.kicks| ==> prev.kicks[k].client < n - 1 by {
        ScanShape(ps, authed, tick, tickSpeed, cfg, n - 1);
      }
      assert r == Step(prev, authed, n - 1, tick, tickSpeed, cfg);
      var idle := Idle(ps, authed, n - 1, tick, tickSpeed, cfg.kickTime);
      assert r.players == prev.players;
      assert r.kicks == if idle then prev.kicks + [Kick(n - 1, InactivityReason)] else prev.kicks;
      forall j | 0 <= j < n
        ensures Idle(ps, authed, j, tick, tickSpeed, cfg.kickTime) <==> exists k :: 0 <= k < |r.kicks| && r.kicks[k].client == j
      {
        if j < n - 1 {
          OlderSlotKicks(prev, r, j, n - 1);
        } else if idle {
          assert r.kicks[|r.kicks| - 1].client == j;
        }
      }
    }
  }

  /**
   * Under policy 1 the scan never raises the number of spectators above the
   * larger of its starting value and the reserved spectator slots: a player
   * is only moved while the spectators are fewer than the slots.
   */
  lemma {:induction false} PolicyQuotaBound(ps: seq<Option<Player>>, authed: seq<bool>, tick: int, tickSpeed: int, cfg: InactivityConfig, n: nat)
    requires n <= |ps| && |authed| == |ps| && cfg.policy == 1
    ensures var c := SpectatorCount(Scan(ps, authed, tick, tickSpeed, cfg, n).players);
      c <= SpectatorCount(ps) || c <= cfg.spectatorSlots
  {
    if n > 0 {
      PolicyQuotaBound(ps, authed, tick, tickSpeed, cfg, n - 1);
      ScanQuotaStep(ps, authed, tick, tickSpeed, cfg, n);
    }
  }

  /** Deciding slot n-1 keeps the spectator count no higher than before it, or within the reserved slots. */
  lemma ScanQuotaStep(ps: seq<Option<Player>>, authed: seq<bool>, tick: int, tickSpeed: int, cfg: InactivityConfig, n: nat)
    requires 0 < n <= |ps| && |authed| == |ps| && cfg.policy == 1
    ensures var now := SpectatorCount(Scan(ps, authed, tick, tickSpeed, cfg, n).players);
      now <= SpectatorCount(Scan(ps, authed, tick, tickSpeed, cfg, n - 1).players) || now <= cfg.spectatorSlots
  {
    var prev := Scan(ps, authed, tick, tickSpeed, cfg, n - 1);
    assert Scan(ps, authed, tick, tickSpeed, cfg, n) == Step(prev, authed, n - 1, tick, tickSpeed, cfg);
    QuotaStep(prev, authed, n - 1, tick, tickSpeed, cfg);
  }

  /** One policy-1 decision leaves the spectator count no higher than before, or within the reserved slots. */
  lemma QuotaStep(st: ScanState, authed: seq<bool>, i: nat, tick: int, tickSpeed: int, cfg: InactivityConfig)
    requires i < |st.players| && i < |authed| && cfg.policy == 1
    ensures var c := SpectatorCount(Step(st, authed, i, tick, tickSpeed, cfg).players);
      c <= SpectatorCount(st.players) || c <= cfg.spectatorSlots
  {
    var r := Step(st, authed, i, tick, tickSpeed, cfg);
    if Idle(st.players, authed, i, tick, tickSpeed, cfg.kickTime) && SpectatorCount(st.players) < cfg.spectatorSlots {
      assert r.players == st.players[i := ToSpectators(st.players[i])];
      SpectatorCountUpdate(st.players, i, ToSpectators(st.players[i]));
      assert !IsSpectator(st.players[i]) && IsSpectator(ToSpectators(st.players[i]));
    } else {
      assert r.players == st.players;
    }
  }

  /** Later decisions leave an already decided slot alone. */
  lemma {:induction false} ScanKeepsDecided(ps: seq<Option<Player>>, authed: seq<bool>, tick: int, tickSpeed: int, cfg: InactivityConfig, j: nat, n: nat)
    requires j < n <= |ps| && |authed| == |ps|
    ensures Scan(ps, authed, tick, tickSpeed, cfg, n).players[j] == Scan(ps, authed, tick, tickSpeed, cfg, j + 1).players[j]
  {
    if n > j + 1 {
      ScanKeepsDecided(ps, authed, tick, tickSpeed, cfg, j, n - 1);
      StepEffect(Scan(ps, authed, tick, tickSpeed, cfg, n - 1), authed, n - 1, tick, tickSpeed, cfg);
    }
  }

  /**
   * Under policy 1 an idle player is moved exactly when, at its turn in the
   * scan, the spectators are fewer than the reserved slots, and kicked
   * exactly when they are not.
   */
  lemma PolicyOneDecision(ps: seq<Option<Player>>, authed: seq<bool>, tick: int, tickSpeed: int, cfg: InactivityConfig, j: nat)
    requires j < |ps| && |authed| == |ps| && cfg.policy == 1 && cfg.kickTime > 0
    requires Idle(ps, authed, j, tick, tickSpeed, cfg.kickTime)
    ensures var r := InactivityCheck(ps, authed, tick, tickSpeed, cfg);
      var before := SpectatorCount(Scan(ps, authed, tick, tickSpeed, cfg, j).players);
      (r.players[j] == ToSpectators(ps[j]) <==> before < cfg.spectatorSlots) &&
      ((exists k :: 0 <= k < |r.kicks| && r.kicks[k].client == j) <==> before >= cfg.spectatorSlots)
  {
    var prev := Scan(ps, authed, tick, tickSpeed, cfg, j);
    assert prev.players[j] == ps[j] by {
      ScanShape(ps, authed, tick, tickSpeed, cfg, j);
    }
    assert Scan(ps, authed, tick, tickSpeed, cfg, j + 1) == Step(prev, authed, j, tick, tickSpeed, cfg);
    assert ToSpectators(ps[j]) != ps[j];
    ScanKeepsDecided(ps, authed, tick, tickSpeed, cfg, j, |ps|);
    IdleSlotsHandled(ps, authed, tick, tickSpeed, cfg, |ps|);
  }

  /** With a kick time of zero or less the check changes nothing. */
  lemma CheckDisabled(ps: seq<Option<Player>>, authed: seq<bool>, tick: int, tickSpeed: int, cfg: InactivityConfig)
    requires |authed| == |ps| && cfg.kickTime <= 0
    ensures InactivityCheck(ps, authed, tick, tickSpeed, cfg) == ScanState(ps, [])
  {
  }

  /** The per-tick inactivity check over the player slots, updating them in place. */
  method Tick(players: array<Option<Player>>, authed: seq<bool>, tick: int, tickSpeed: int, cfg: InactivityConfig)
    returns (kicks: seq<Kick>)
    requires |authed| == players.Length
    modifies players
    ensures ScanState(players[..], kicks) == InactivityCheck(old(players[..]), authed, tick, tickSpeed, cfg)
  {
    kicks := [];
    if cfg.kickTime > 0 {
      for i := 0 to players.Length
        invariant ScanState(players[..], kicks) == Scan(old(players[..]), authed, tick, tickSpeed, cfg, i)
      {
        var p := players[i];
        if p.Some? && p.value.team != TeamSpectators && !authed[i] {
          if tick > p.value.lastActionTick + cfg.kickTime * tickSpeed * 60 {
            if cfg.policy == 0 {
              players[i] := Some(p.value.(team := TeamSpectators));
            } else if cfg.policy == 1 {
              var spectators := 0;
              for j := 0 to players.Length
                invariant spectators == SpectatorCount(players[..j])
              {
                assert players[..j + 1][..j] == players[..j];
                if players[j].Some? && players[j].value.team == TeamSpectators {
                  spectators := spectators + 1;
                }
              }
              assert players[..players.Length] == players[..];
              if spectators >= cfg.spectatorSlots {
                kicks := kicks + [Kick(i, InactivityReason)];
              } else {
                players[i] := Some(p.value.(team := TeamSpectators));
              }
            } else if cfg.policy == 2 {
              kicks := kicks + [Kick(i, InactivityReason)];
            }
          }
        }
      }
    }
  }
}
