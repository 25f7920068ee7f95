/** The player sprite as the game holds it: an object whose fields the handlers
    update in place, next to the arcade physics body it owns. Every method is
    proved to leave the object in the state the value-level specification in
    PlayerSpec describes, and to return the same requests to the engine. */
module PlayerSprite {
  import opened PlayerSpec

  /** The part of the arcade physics body the player writes. */
  class Body {
    var velocityX: int
    var velocityY: int
    var gravityY: int
    var enable: bool
    var moves: bool
    var immovable: bool

    constructor ()
      ensures State() == BodyState(0, 0, 0, true, true, false)
    {
      velocityX := 0;
      velocityY := 0;
      gravityY := 0;
      enable := true;
      moves := true;
      immovable := false;
    }

    function State(): BodyState
      reads this
    {
      BodyState(velocityX, velocityY, gravityY, enable, moves, immovable)
    }
  }

  class Player {
    var x: int
    var y: int
    const body: Body

    var dead: bool
    var deadAnimationPlayed: bool
    var health: int
    var invincible: bool

    var jumping: bool
    var falling: bool
    var building: bool
    var jumpCount: int
    var maxJumps: int
    var right: bool

    var walkVelocity: int
    var jumpVelocity: int
    var mjolnir: bool

    /** Callbacks handed to the engine's timer and not yet run. */
    var pending: seq<Task>

    /** The object's state as a value. */
    function Snapshot(): PlayerState
      reads this, body
    {
      PlayerState(
        x, y,
        Vitals(dead, deadAnimationPlayed, health, invincible),
        Motion(jumping, falling, building, jumpCount, maxJumps, right),
        Powers(walkVelocity, jumpVelocity, mjolnir),
        body.State(),
        pending)
    }

    constructor (x0: int, y0: int, health0: int := 1)
      ensures Snapshot() == Initial(x0, y0, health0)
      ensures Inv(Snapshot())
      ensures fresh(body)
    {
      x := x0;
      y := y0;
      var b := new Body();
      b.gravityY := InitialGravity;
      body := b;
      right := true;
      jumping := false;
      building := false;
      falling := false;
      mjolnir := false;
      walkVelocity := WalkVelocity;
      jumpVelocity := JumpVelocity;
      invincible := false;
      jumpCount := 0;
      maxJumps := 1;
      health := health0;
      dead := false;
      deadAnimationPlayed := false;
      pending := [];
    }

    /** One engine tick: the dead short-circuit, or the falling check, the jump,
        the horizontal branch, the hammer and build edges and the grounded reset. */
    method Update(i: Input) returns (effects: seq<Effect>)
      modifies this, body
      ensures Snapshot() == Tick(old(Snapshot()), i).player
      ensures effects == Tick(old(Snapshot()), i).effects
    {
      if dead {
        if !deadAnimationPlayed {
          deadAnimationPlayed := true;
          effects := [PlayAnimation(DeadAnim)];
        } else {
          effects := [];
        }
        return;
      }
      ghost var s0 := Snapshot();
      FallStep(i);
      effects := JumpStep(i);
      var moveEffects := MoveStep(i);
      var toolEffects := ToolsStep(i);
      effects := effects + moveEffects + toolEffects;
      if i.blockedDown {
        jumpCount := 0;
      }
      assert Tick(s0, i) == AliveTick(s0, i);
    }

    /** A jumping player whose body no longer rises gets fall gravity. */
    method FallStep(i: Input)
      modifies this, body
      ensures Snapshot() == Fall(old(Snapshot()), i)
    {
      if jumping {
        if i.velocityY >= 0 {
          body.gravityY := FallGravity;
          falling := true;
        }
      }
    }

    /** The jump edge, honoured while the jump budget lasts. */
    method JumpStep(i: Input) returns (effects: seq<Effect>)
      modifies this, body
      ensures Snapshot() == Jump(old(Snapshot()), i).player
      ensures effects == Jump(old(Snapshot()), i).effects
    {
      effects := [];
      if i.JumpPressed() && jumpCount < maxJumps {
        building := false;
        body.velocityY := jumpVelocity;
        body.gravityY := JumpGravity;
        jumping := true;
        effects := [PlayAnimation(JumpAnim), PlayAudio(JumpCue), JumpSmoke(x, y + JumpSmokeOffsetY)];
        jumpCount := if i.blockedDown then 1 else jumpCount + 1;
      }
    }

    /** The hammer edge, then the build edge. */
    method ToolsStep(i: Input) returns (effects: seq<Effect>)
      modifies this
      ensures Snapshot() == Tools(old(Snapshot()), i).player
      ensures effects == Tools(old(Snapshot()), i).effects
    {
      effects := [];
      if i.HammerPressed() {
        effects := HammerBlow();
      }
      if i.BuildPressed() {
        var built := BuildBlock();
        effects := effects + built;
      }
    }

    /** The horizontal branch of a tick: right, left or neither. */
    method MoveStep(i: Input) returns (effects: seq<Effect>)
      modifies this, body
      ensures Snapshot() == Move(old(Snapshot()), i).player
      ensures effects == Move(old(Snapshot()), i).effects
    {
      if i.RightHeld() {
        building := false;
        effects := [];
        if i.blockedDown {
          jumpCount := 0;
          effects := [PlayAnimation(WalkAnim)];
        }
        right := true;
        body.velocityX := walkVelocity;
      } else if i.LeftHeld() {
        building := false;
        effects := [];
        if i.blockedDown {
          effects := [PlayAnimation(WalkAnim)];
        }
        right := false;
        body.velocityX := -walkVelocity;
      } else {
        effects := [];
        if i.blockedDown {
          if jumping {
            effects := [PlayAudio(LandCue), JumpSmoke(x, y + LandSmokeOffsetY)];
          }
          jumping := false;
          falling := false;
          if !building {
            effects := effects + [PlayAnimation(IdleAnim)];
          }
        }
        body.velocityX := 0;
      }
    }

    method BuildBlock() returns (effects: seq<Effect>)
      modifies this
      ensures Snapshot() == PlayerSpec.BuildBlock(old(Snapshot())).player
      ensures effects == PlayerSpec.BuildBlock(old(Snapshot())).effects
    {
      building := true;
      var offsetX := if right then BrickOffsetX else -BrickOffsetX;
      var offsetY := if jumpVelocity == JumpVelocity then 0 else RaisedBrickOffsetY;
      effects := [PlayAnimation(BuildAnim), PlayAudio(BuildCue),
                  BuildSmoke(x + offsetX, y + BuildSmokeOffsetY),
                  SpawnBrick(x + offsetX, y + offsetY)];
    }

    method HammerBlow() returns (effects: seq<Effect>)
      modifies this
      ensures Snapshot() == PlayerSpec.HammerBlow(old(Snapshot())).player
      ensures effects == PlayerSpec.HammerBlow(old(Snapshot())).effects
    {
      building := true;
      var offsetX := if right then BlowOffsetX else -BlowOffsetX;
      var size := if mjolnir then MjolnirBlowSize else BlowSize;
      effects := [PlayAnimation(HammerAnim), SpawnBlow(x + offsetX, y, size, size)];
    }

    method Turn()
      modifies this
      ensures Snapshot() == PlayerSpec.Turn(old(Snapshot()))
    {
      right := !right;
    }

    /** The engine's animation-complete event for the animation named `key`. */
    method AnimationComplete(key: string) returns (effects: seq<Effect>)
      modifies this
      ensures Snapshot() == PlayerSpec.AnimationComplete(old(Snapshot()), key).player
      ensures effects == PlayerSpec.AnimationComplete(old(Snapshot()), key).effects
    {
      effects := [];
      if key == GroundAnim.Key() {
        effects := [PlayAnimation(IdleAnim)];
      }
      if key == HammerAnim.Key() || key == BuildAnim.Key() {
        building := false;
        effects := [PlayAnimation(if jumping then JumpAnim else IdleAnim)];
      }
    }

    method Hit() returns (effects: seq<Effect>)
      modifies this, body
      ensures Snapshot() == PlayerSpec.Hit(old(Snapshot())).player
      ensures effects == PlayerSpec.Hit(old(Snapshot())).effects
    {
      if dead || invincible {
        effects := [];
        return;
      }
      health := health - 1;
      if health <= 0 {
        effects := Die();
      } else {
        effects := [PlayAnimation(DeadAnim)];
        body.enable := false;
        invincible := true;
        pending := pending + [ClearInvincible];
      }
    }

    method Die() returns (effects: seq<Effect>)
      modifies this, body
      ensures Snapshot() == PlayerSpec.Die(old(Snapshot())).player
      ensures effects == PlayerSpec.Die(old(Snapshot())).effects
    {
      if dead {
        effects := [];
        return;
      }
      dead := true;
      effects := [PlayAnimation(DeadAnim)];
      body.immovable := true;
      body.moves := false;
      pending := pending + [RequestRestart];
    }

    method ApplyPrize(prize: string) returns (effects: seq<Effect>)
      modifies this
      ensures Snapshot() == PlayerSpec.ApplyPrize(old(Snapshot()), prize).player
      ensures effects == PlayerSpec.ApplyPrize(old(Snapshot()), prize).effects
    {
      if prize == SpeedPrize {
        walkVelocity := BoostedWalkVelocity;
        effects := [Flash];
      } else if prize == HammerPrize {
        mjolnir := true;
        effects := [Flash];
      } else if prize == BootsPrize {
        jumpVelocity := BoostedJumpVelocity;
        effects := [Flash];
      } else if prize == CoinPrize {
        effects := [UpdateCoins];
      } else if prize == StarPrize {
        invincible := true;
        effects := [Pulse];
      } else {
        effects := [];
      }
    }

    /** The engine's timer runs the pending callback at `index`. */
    method FireTask(index: nat) returns (effects: seq<Effect>)
      modifies this, body
      ensures Snapshot() == PlayerSpec.FireTask(old(Snapshot()), index).player
      ensures effects == PlayerSpec.FireTask(old(Snapshot()), index).effects
    {
      if index >= |pending| {
        effects := [];
        return;
      }
      var task := pending[index];
      pending := pending[..index] + pending[index + 1..];
      match task
      case ClearInvincible =>
        invincible := false;
        body.enable := true;
        effects := [];
      case RequestRestart =>
        effects := [RestartScene];
    }
  }
}
