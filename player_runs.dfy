/** Sequences of calls into the player controller: engine ticks, enemy hits,
    deaths, prizes, timer callbacks, animation-complete events and turns, in any
    interleaving. The lemmas here are the properties that only show over several
    calls: the restart is requested at most once, the death animation is played
    by at most one tick, jumps in the air are bounded by the jump budget. */
module PlayerRuns {
  import opened PlayerSpec

  /** One call the game makes on the player. */
  datatype Op =
    | TickOp(input: Input)
    | HitOp
    | DieOp
    | PrizeOp(prize: string)
    | FireOp(index: nat)
    | AnimationDoneOp(key: string)
    | TurnOp

  function Step(s: PlayerState, op: Op): Outcome
  {
    match op
    case TickOp(i) => Tick(s, i)
    case HitOp => Hit(s)
    case DieOp => Die(s)
    case PrizeOp(prize) => ApplyPrize(s, prize)
    case FireOp(index) => FireTask(s, index)
    case AnimationDoneOp(key) => AnimationComplete(s, key)
    case TurnOp => Outcome(Turn(s), [])
  }

  /** The calls in order; the effects of all of them, in order. */
  function Run(s: PlayerState, ops: seq<Op>): (r: Outcome)
    ensures Inv(s) ==> Inv(r.player)
    ensures s.vitals.dead ==> r.player.vitals.dead
    ensures r.player.vitals.health <= s.vitals.health
    ensures r.player.motion.maxJumps == s.motion.maxJumps
    decreases |ops|
  {
    if |ops| == 0 then Outcome(s, [])
    else
      var first := Step(s, ops[0]);
      StepMonotone(s, ops[0]);
      var rest := Run(first.player, ops[1..]);
      Outcome(rest.player, first.effects + rest.effects)
  }

  /** Restart tasks waiting in the timer queue. */
  function RestartsPending(s: PlayerState): nat
  {
    multiset(s.pending)[RequestRestart]
  }

  function DeadCount(s: PlayerState): nat
  {
    if s.vitals.dead then 1 else 0
  }

  /** 1 while the player is dead and no tick has yet played the death animation. */
  function DeathAnimationOwed(s: PlayerState): nat
  {
    if s.vitals.dead && !s.vitals.deadAnimationPlayed then 1 else 0
  }

  /** No tick in `ops` sees the body on the ground. */
  predicate Airborne(ops: seq<Op>)
  {
    forall k | 0 <= k < |ops| :: ops[k].TickOp? ==> !ops[k].input.blockedDown
  }

  predicate TicksOnly(ops: seq<Op>)
  {
    forall k | 0 <= k < |ops| :: ops[k].TickOp?
  }

  // ---------------------------------------------------------------- one call

  /** No call revives the player, restores health or changes the jump limit,
      and every call keeps the invariant. */
  lemma StepMonotone(s: PlayerState, op: Op)
    ensures Inv(s) ==> Inv(Step(s, op).player)
    ensures s.vitals.dead ==> Step(s, op).player.vitals.dead
    ensures Step(s, op).player.vitals.health <= s.vitals.health
    ensures Step(s, op).player.motion.maxJumps == s.motion.maxJumps
  {
    match op
    case TickOp(i) => TickJumpCount(s, i);
    case _ =>
  }

  /** Restart bookkeeping of one call: a restart is either still pending,
      already requested, or not yet owed because the player is alive. */
  predicate RestartBalanced(s: PlayerState, r: Outcome)
  {
    multiset(r.effects)[RestartScene] + RestartsPending(r.player) + DeadCount(s) ==
    RestartsPending(s) + DeadCount(r.player)
  }

  lemma StepRestartBalance(s: PlayerState, op: Op)
    ensures RestartBalanced(s, Step(s, op))
  {
    match op
    case TickOp(i) => TickCues(s, i);
    case HitOp => HitRestartBalance(s);
    case DieOp =>
    case PrizeOp(prize) => PrizeRestartBalance(s, prize);
    case FireOp(index) => FireRestartBalance(s, index);
    case AnimationDoneOp(key) =>
      assert RestartScene !in AnimationComplete(s, key).effects;
    case TurnOp =>
  }

  lemma HitRestartBalance(s: PlayerState)
    ensures RestartBalanced(s, Hit(s))
  {
    if !s.vitals.dead && !s.vitals.invincible {
      assert multiset(Hit(s).player.pending)[RequestRestart] ==
        multiset(s.pending)[RequestRestart] + (if s.vitals.health - 1 <= 0 then 1 else 0);
    }
  }

  lemma PrizeRestartBalance(s: PlayerState, prize: string)
    ensures RestartBalanced(s, ApplyPrize(s, prize))
  {
    var r := ApplyPrize(s, prize);
    assert r.effects == [] || r.effects == [UpdateCoins] || r.effects == [Pulse] || r.effects == [Flash];
  }

  lemma FireRestartBalance(s: PlayerState, index: nat)
    ensures RestartBalanced(s, FireTask(s, index))
  {
    if index < |s.pending| {
      var r := FireTask(s, index);
      assert multiset(r.player.pending)[RequestRestart] + multiset{s.pending[index]}[RequestRestart] ==
             multiset(s.pending)[RequestRestart];
    }
  }

  /** Death-animation bookkeeping of one call, for a dead player or a tick. */
  lemma StepDeathAnimation(s: PlayerState, op: Op)
    requires s.vitals.dead || op.TickOp?
    ensures var r := Step(s, op);
      multiset(r.effects)[PlayAnimation(DeadAnim)] + DeathAnimationOwed(r.player) == DeathAnimationOwed(s)
  {
    match op
    case TickOp(i) => TickCues(s, i);
    case AnimationDoneOp(key) =>
      assert PlayAnimation(DeadAnim) !in AnimationComplete(s, key).effects;
    case _ =>
  }

  /** A call that is not a grounded tick uses up exactly as much of the jump
      budget as it plays jump cues. */
  lemma StepJumpCues(s: PlayerState, op: Op)
    requires op.TickOp? ==> !op.input.blockedDown
    ensures var r := Step(s, op);
      r.player.motion.jumpCount == s.motion.jumpCount + multiset(r.effects)[PlayAudio(JumpCue)]
  {
    match op
    case TickOp(i) => TickCues(s, i); TickJumpCount(s, i);
    case AnimationDoneOp(key) =>
      assert PlayAudio(JumpCue) !in AnimationComplete(s, key).effects;
    case _ =>
  }

  // ---------------------------------------------------------------- whole runs

  lemma {:induction false} RunRestartBalance(s: PlayerState, ops: seq<Op>)
    ensures RestartBalanced(s, Run(s, ops))
    decreases |ops|
  {
    if |ops| != 0 {
      var first := Step(s, ops[0]);
      StepRestartBalance(s, ops[0]);
      RunRestartBalance(first.player, ops[1..]);
      assert Run(s, ops).effects == first.effects + Run(first.player, ops[1..]).effects;
    }
  }

  /** Whatever the calls, the scene restart is requested at most once; from a
      living player it is requested exactly when the player ends up dead and
      the restart task has already fired. */
  lemma RunRestartsOnce(s: PlayerState, ops: seq<Op>)
    requires Inv(s)
    ensures multiset(Run(s, ops).effects)[RestartScene] <= 1
    ensures !s.vitals.dead ==>
      multiset(Run(s, ops).effects)[RestartScene] ==
        DeadCount(Run(s, ops).player) - RestartsPending(Run(s, ops).player)
  {
    RunRestartBalance(s, ops);
  }

  lemma {:induction false} RunDeathAnimation(s: PlayerState, ops: seq<Op>)
    requires s.vitals.dead || TicksOnly(ops)
    ensures var r := Run(s, ops);
      multiset(r.effects)[PlayAnimation(DeadAnim)] + DeathAnimationOwed(r.player) == DeathAnimationOwed(s)
    decreases |ops|
  {
    if |ops| != 0 {
      var first := Step(s, ops[0]);
      assert ops[0].TickOp? || s.vitals.dead;
      StepDeathAnimation(s, ops[0]);
      StepMonotone(s, ops[0]);
      assert TicksOnly(ops) ==> TicksOnly(ops[1..]) by {
        if TicksOnly(ops) {
          forall k | 0 <= k < |ops[1..]| ensures ops[1..][k].TickOp? {
            assert ops[1..][k] == ops[k + 1];
          }
        }
      }
      RunDeathAnimation(first.player, ops[1..]);
      assert Run(s, ops).effects == first.effects + Run(first.player, ops[1..]).effects;
    }
  }

  /** Once dead, whatever the calls, the ticks request the death animation at
      most once, and not at all once a tick has played it; a run of ticks
      alone requests it at most once from any state. */
  lemma DeathAnimationAtMostOnce(s: PlayerState, ops: seq<Op>)
    requires s.vitals.dead || TicksOnly(ops)
    ensures multiset(Run(s, ops).effects)[PlayAnimation(DeadAnim)] <= 1
    ensures s.vitals.deadAnimationPlayed ==> multiset(Run(s, ops).effects)[PlayAnimation(DeadAnim)] == 0
  {
    RunDeathAnimation(s, ops);
  }

  lemma {:induction false} RunJumpCues(s: PlayerState, ops: seq<Op>)
    requires Airborne(ops)
    ensures Run(s, ops).player.motion.jumpCount == s.motion.jumpCount + multiset(Run(s, ops).effects)[PlayAudio(JumpCue)]
    decreases |ops|
  {
    if |ops| != 0 {
      var first := Step(s, ops[0]);
      StepJumpCues(s, ops[0]);
      assert Airborne(ops[1..]) by {
        forall k | 0 <= k < |ops[1..]| ensures ops[1..][k].TickOp? ==> !ops[1..][k].input.blockedDown {
          assert ops[1..][k] == ops[k + 1];
        }
      }
      RunJumpCues(first.player, ops[1..]);
      assert Run(s, ops).effects == first.effects + Run(first.player, ops[1..]).effects;
    }
  }

  /** Jump bound: while the body stays in the air, the calls play at most as many
      jump cues as the jump budget has left. */
  lemma AirborneJumpBound(s: PlayerState, ops: seq<Op>)
    requires Inv(s) && Airborne(ops)
    ensures multiset(Run(s, ops).effects)[PlayAudio(JumpCue)] <= s.motion.maxJumps - s.motion.jumpCount
  {
    RunJumpCues(s, ops);
  }

  /** The grounded jump is not counted: the same tick's grounded reset sets the
      budget back to 0, so with `maxJumps == 1` a player jumps from the ground
      and then once more in the air. */
  lemma GroundJumpThenAirJump()
    ensures var s := Initial(0, 0, 1);
      var press := Input(true, false, false, false, false, false, false, false, false, true, 0);
      var s1 := Tick(s, press).player;
      s.motion.maxJumps == 1 &&
      multiset(Tick(s, press).effects)[PlayAudio(JumpCue)] == 1 &&
      s1.motion.jumpCount == 0 &&
      multiset(Tick(s1, press.(blockedDown := false)).effects)[PlayAudio(JumpCue)] == 1
  {
    var s := Initial(0, 0, 1);
    var press := Input(true, false, false, false, false, false, false, false, false, true, 0);
    TickJumpCount(s, press);
    TickCues(s, press);
    TickCues(Tick(s, press).player, press.(blockedDown := false));
  }

  // ---------------------------------------------------------------- single operations twice

  /** `die` requests the death animation without recording it as played, so the
      next tick requests it again: a death asks for "playerdead" twice. */
  lemma DeathAnimationTwice(i: Input)
    ensures var died := Die(Initial(0, 0));
      died.effects == [PlayAnimation(DeadAnim)] && !died.player.vitals.deadAnimationPlayed &&
      Tick(died.player, i).effects == [PlayAnimation(DeadAnim)]
  {
  }

  /** A second `die` changes nothing and requests nothing. */
  lemma DieIdempotent(s: PlayerState)
    ensures Die(Die(s).player) == Outcome(Die(s).player, [])
  {
  }

  lemma {:induction false} RepeatedDie(s: PlayerState, n: nat)
    requires !s.vitals.dead && n >= 1
    ensures var r := Run(s, seq(n, _ => DieOp));
      RestartsPending(r.player) == RestartsPending(s) + 1 && r.effects == [PlayAnimation(DeadAnim)]
    decreases n
  {
    var ops := seq(n, _ => DieOp);
    var first := Die(s);
    assert ops[1..] == seq(n - 1, _ => DieOp);
    if n == 1 {
      assert Run(s, ops).effects == first.effects + [];
    } else {
      DeadRepeatedDie(first.player, n - 1);
      assert Run(s, ops).effects == first.effects + [];
    }
  }

  lemma {:induction false} DeadRepeatedDie(s: PlayerState, n: nat)
    requires s.vitals.dead
    ensures Run(s, seq(n, _ => DieOp)) == Outcome(s, [])
    decreases n
  {
    if n != 0 {
      var ops := seq(n, _ => DieOp);
      assert ops[1..] == seq(n - 1, _ => DieOp);
      DeadRepeatedDie(s, n - 1);
    }
  }

  /** A hit leaves the player dead or invincible, so a second hit before the
      invincibility task fires is ignored. */
  lemma HitTwice(s: PlayerState)
    ensures Hit(Hit(s).player) == Outcome(Hit(s).player, [])
  {
  }

  lemma PrizeIdempotent(s: PlayerState, prize: string)
    ensures ApplyPrize(ApplyPrize(s, prize).player, prize).player == ApplyPrize(s, prize).player
  {
  }

  lemma TurnTwice(s: PlayerState)
    ensures Turn(Turn(s)) == s
  {
  }

  /** Dying in the middle of a build keeps `building` set: neither `hit` nor
      `die` clears it, and a dead player's tick returns before anything else. */
  lemma BuildingSurvivesDeath()
    ensures var s := Initial(0, 0, 1).(motion := Initial(0, 0, 1).motion.(building := true));
      var r := Run(s, [HitOp, TickOp(Input(false, false, false, false, false, false, false, false, false, true, 0))]);
      r.player.vitals.dead && r.player.motion.building
  {
    var s := Initial(0, 0, 1).(motion := Initial(0, 0, 1).motion.(building := true));
    var i := Input(false, false, false, false, false, false, false, false, false, true, 0);
    var ops := [HitOp, TickOp(i)];
    assert ops[1..] == [TickOp(i)];
    assert [TickOp(i)][1..] == [];
    assert Hit(s).player.vitals.dead;
  }
}
