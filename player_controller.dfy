/**
 * The platformer player's health, lives and invincibility state, and the jump that
 * depends on being grounded. Every damage path (enemy contact, instakill obstacles)
 * goes through TakeDamage, which invincibility blocks entirely.
 */
module PlayerControl {
  import opened Geometry

  /** The part of the player's state that damage, healing and invincibility change. */
  datatype Vitals = Vitals(hp: int, lives: int, invincible: bool, invTimer: real)

  /** Losing a life: the game ends when no lives remain, otherwise HP is restored. */
  function Respawned(v: Vitals, maxHP: int): Vitals {
    if v.lives - 1 <= 0 then v.(lives := v.lives - 1)
    else v.(lives := v.lives - 1, hp := maxHP)
  }

  predicate GameOverAfterDeath(v: Vitals) {
    v.lives - 1 <= 0
  }

  /** A hit: ignored while invincible; otherwise HP drops and at zero or below a life is lost. */
  function Damaged(v: Vitals, amount: int, maxHP: int): Vitals {
    if v.invincible then v
    else if v.hp - amount <= 0 then Respawned(v.(hp := v.hp - amount), maxHP)
    else v.(hp := v.hp - amount)
  }

  /** Whether a hit of this size costs a life. */
  predicate Dies(v: Vitals, amount: int) {
    !v.invincible && v.hp - amount <= 0
  }

  /** Touching an enemy: an invincible player kills it unharmed, any other player takes one point. */
  function EnemyHit(v: Vitals, maxHP: int): Vitals {
    if v.invincible then v else Damaged(v, 1, maxHP)
  }

  function Healed(v: Vitals, amount: int, maxHP: int): Vitals {
    v.(hp := if maxHP < v.hp + amount then maxHP else v.hp + amount)
  }

  function Shielded(v: Vitals, duration: real): Vitals {
    v.(invincible := true, invTimer := if v.invTimer < duration then duration else v.invTimer)
  }

  /** One frame of the invincibility countdown; the timer only runs while invincible. */
  function Ticked(v: Vitals, dt: real): Vitals {
    if !v.invincible then v
    else if v.invTimer - dt <= 0.0 then v.(invTimer := v.invTimer - dt, invincible := false)
    else v.(invTimer := v.invTimer - dt)
  }

  class PlayerController {
    var jumpImpulse: real
    var maxHP: int
    var lives: int
    var velocity: Vector3
    var isGrounded: bool
    var isInvincible: bool
    var invTimer: real
    var currentHP: int

    ghost function State(): Vitals
      reads this
    {
      Vitals(currentHP, lives, isInvincible, invTimer)
    }

    /** The inspector defaults, with Start's currentHP = maxHP. */
    constructor ()
      ensures jumpImpulse == 12.0 && maxHP == 5 && lives == 3
      ensures velocity == Zero && !isGrounded && !isInvincible && invTimer == 0.0
      ensures currentHP == maxHP
    {
      jumpImpulse := 12.0;
      maxHP := 5;
      lives := 3;
      velocity := Zero;
      isGrounded := false;
      isInvincible := false;
      invTimer := 0.0;
      currentHP := maxHP;
    }

    /** Only a grounded player jumps: upward speed becomes the impulse and the player leaves the ground. */
    method TryJump()
      modifies this
      ensures old(isGrounded) ==> velocity == old(velocity).(y := jumpImpulse) && !isGrounded
      ensures !old(isGrounded) ==> velocity == old(velocity) && !isGrounded
      ensures State() == old(State()) && jumpImpulse == old(jumpImpulse) && maxHP == old(maxHP)
    {
      if isGrounded {
        velocity := velocity.(y := jumpImpulse);
        isGrounded := false;
      }
    }

    method HandleInvincibility(dt: real)
      modifies this
      ensures State() == Ticked(old(State()), dt)
      ensures velocity == old(velocity) && isGrounded == old(isGrounded)
      ensures jumpImpulse == old(jumpImpulse) && maxHP == old(maxHP)
    {
      if isInvincible {
        invTimer := invTimer - dt;
        if invTimer <= 0.0 {
          isInvincible := false;
        }
      }
    }

    /**
     * Always costs a life. With none left the game is over (the scene is not reset);
     * otherwise HP is refilled and the player stops.
     */
    method DieAndRespawn() returns (gameOver: bool)
      modifies this
      ensures gameOver <==> GameOverAfterDeath(old(State()))
      ensures State() == Respawned(old(State()), old(maxHP))
      ensures velocity == if gameOver then old(velocity) else Zero
      ensures isGrounded == old(isGrounded) && jumpImpulse == old(jumpImpulse) && maxHP == old(maxHP)
    {
      lives := lives - 1;
      if lives <= 0 {
        gameOver := true;
      } else {
        gameOver := false;
        velocity := Zero;
        currentHP := maxHP;
      }
    }

    method TakeDamage(amount: int) returns (died: bool, gameOver: bool)
      modifies this
      ensures died <==> Dies(old(State()), amount)
      ensures gameOver <==> died && GameOverAfterDeath(old(State()))
      ensures State() == Damaged(old(State()), amount, old(maxHP))
      ensures velocity == if died && !gameOver then Zero else old(velocity)
      ensures isGrounded == old(isGrounded) && jumpImpulse == old(jumpImpulse) && maxHP == old(maxHP)
    {
      died, gameOver := false, false;
      if isInvincible {
        return;
      }
      currentHP := currentHP - amount;
      if currentHP <= 0 {
        died := true;
        gameOver := DieAndRespawn();
      }
    }

    /** Returns whether the enemy was killed; the Enemy object itself is not modelled. */
    method OnEnemyCollision() returns (enemyKilled: bool, gameOver: bool)
      modifies this
      ensures enemyKilled == old(isInvincible)
      ensures State() == EnemyHit(old(State()), old(maxHP))
      ensures enemyKilled ==> !gameOver && velocity == old(velocity)
      ensures !enemyKilled ==> (gameOver <==> Dies(old(State()), 1) && GameOverAfterDeath(old(State())))
      ensures !enemyKilled ==>
        velocity == if Dies(old(State()), 1) && !gameOver then Zero else old(velocity)
      ensures isGrounded == old(isGrounded) && jumpImpulse == old(jumpImpulse) && maxHP == old(maxHP)
    {
      if isInvincible {
        return true, false;
      }
      var died;
      died, gameOver := TakeDamage(1);
      enemyKilled := false;
    }

    method GrantExtraLife(amount: int)
      modifies this
      ensures lives == old(lives) + amount
      ensures currentHP == old(currentHP) && isInvincible == old(isInvincible) && invTimer == old(invTimer)
      ensures velocity == old(velocity) && isGrounded == old(isGrounded)
      ensures jumpImpulse == old(jumpImpulse) && maxHP == old(maxHP)
    {
      lives := lives + amount;
    }

    method GrantInvincibility(duration: real)
      modifies this
      ensures State() == Shielded(old(State()), duration)
      ensures velocity == old(velocity) && isGrounded == old(isGrounded)
      ensures jumpImpulse == old(jumpImpulse) && maxHP == old(maxHP)
    {
      isInvincible := true;
      invTimer := if invTimer < duration then duration else invTimer;
    }

    method AddHP(amount: int)
      modifies this
      ensures State() == Healed(old(State()), amount, old(maxHP))
      ensures velocity == old(velocity) && isGrounded == old(isGrounded)
      ensures jumpImpulse == old(jumpImpulse) && maxHP == old(maxHP)
    {
      currentHP := if maxHP < currentHP + amount then maxHP else currentHP + amount;
    }
  }

  // ---- properties of the state machine ----

  /** While invincible no hit, enemy or otherwise, changes HP, lives or the shield. */
  lemma InvincibleIgnoresDamage(v: Vitals, amount: int, maxHP: int)
    requires v.invincible
    ensures Damaged(v, amount, maxHP) == v && EnemyHit(v, maxHP) == v && !Dies(v, amount)
  {
  }

  /** A vulnerable player loses exactly one life on a lethal hit and none otherwise. */
  lemma DamageLivesAccounting(v: Vitals, amount: int, maxHP: int)
    requires !v.invincible
    ensures Dies(v, amount) ==> Damaged(v, amount, maxHP).lives == v.lives - 1
    ensures !Dies(v, amount) ==> Damaged(v, amount, maxHP) == v.(hp := v.hp - amount)
    ensures Dies(v, amount) && !GameOverAfterDeath(v) ==> Damaged(v, amount, maxHP).hp == maxHP
  {
  }

  /** Taking one's own HP as damage, as an instakill obstacle does, always costs a vulnerable player a life. */
  lemma InstakillCostsALife(v: Vitals, maxHP: int)
    requires !v.invincible
    ensures Dies(v, v.hp)
    ensures Damaged(v, v.hp, maxHP).lives == v.lives - 1
  {
  }

  /** Healing never lifts HP above the maximum, and never lowers it for a non-negative amount below the maximum. */
  lemma HealCapped(v: Vitals, amount: int, maxHP: int)
    ensures Healed(v, amount, maxHP).hp <= maxHP
    ensures 0 <= amount && v.hp <= maxHP ==> v.hp <= Healed(v, amount, maxHP).hp
  {
  }

  /** Granting invincibility never shortens a shield that is already running. */
  lemma ShieldNeverShortened(v: Vitals, duration: real)
    ensures Shielded(v, duration).invincible
    ensures Shielded(v, duration).invTimer >= v.invTimer
    ensures Shielded(v, duration).invTimer >= duration
  {
  }

  function Sum(dts: seq<real>): real {
    if |dts| == 0 then 0.0 else Sum(dts[..|dts| - 1]) + dts[|dts| - 1]
  }

  function TickAll(v: Vitals, dts: seq<real>): Vitals {
    if |dts| == 0 then v else Ticked(TickAll(v, dts[..|dts| - 1]), dts[|dts| - 1])
  }

  /**
   * A shield granted for `duration` holds through any run of non-negative frame times whose
   * total stays below it, and the timer has then counted down by exactly that total.
   */
  lemma {:induction false} ShieldLasts(v: Vitals, duration: real, dts: seq<real>)
    requires forall i | 0 <= i < |dts| :: dts[i] >= 0.0
    requires Sum(dts) < Shielded(v, duration).invTimer
    ensures TickAll(Shielded(v, duration), dts).invincible
    ensures TickAll(Shielded(v, duration), dts).invTimer == Shielded(v, duration).invTimer - Sum(dts)
  {
    if |dts| > 0 {
      var init := dts[..|dts| - 1];
      assert forall i | 0 <= i < |init| :: init[i] == dts[i];
      ShieldLasts(v, duration, init);
    }
  }

  /** One step of the player's life: the operations that touch its vitals. */
  datatype Event =
    | Tick(dt: real)
    | Hit(amount: nat)
    | Instakill
    | Enemy
    | Heal(gain: int)
    | ExtraLife(extra: int)
    | Shield(duration: real)
    | Fall

  function Step(v: Vitals, e: Event, maxHP: int): Vitals {
    match e
    case Tick(dt) => Ticked(v, dt)
    case Hit(amount) => Damaged(v, amount, maxHP)
    case Instakill => Damaged(v, v.hp, maxHP)
    case Enemy => EnemyHit(v, maxHP)
    case Heal(gain) => Healed(v, gain, maxHP)
    case ExtraLife(extra) => v.(lives := v.lives + extra)
    case Shield(duration) => Shielded(v, duration)
    case Fall => Respawned(v, maxHP)
  }

  function Run(v: Vitals, events: seq<Event>, maxHP: int): Vitals {
    if |events| == 0 then v else Step(Run(v, events[..|events| - 1], maxHP), events[|events| - 1], maxHP)
  }

  /**
   * HP starts at the maximum and no sequence of events raises it above: hits are
   * non-negative, healing is capped, and an instakill leaves zero, which a non-negative
   * maximum covers.
   */
  lemma {:induction false} HPNeverAboveMax(v: Vitals, events: seq<Event>, maxHP: int)
    requires 0 <= maxHP && v.hp <= maxHP
    ensures Run(v, events, maxHP).hp <= maxHP
  {
    if |events| > 0 {
      HPNeverAboveMax(v, events[..|events| - 1], maxHP);
    }
  }

  /** Lives only go up through ExtraLife: without it, they never increase. */
  lemma {:induction false} LivesNeverGrowUnaided(v: Vitals, events: seq<Event>, maxHP: int)
    requires forall i | 0 <= i < |events| :: !events[i].ExtraLife?
    ensures Run(v, events, maxHP).lives <= v.lives
  {
    if |events| > 0 {
      var init := events[..|events| - 1];
      assert forall i | 0 <= i < |init| :: init[i] == events[i];
      LivesNeverGrowUnaided(v, init, maxHP);
      StepKeepsLives(Run(v, init, maxHP), events[|events| - 1], maxHP);
    }
  }

  /** A single event other than ExtraLife never adds a life. */
  lemma StepKeepsLives(v: Vitals, e: Event, maxHP: int)
    requires !e.ExtraLife?
    ensures Step(v, e, maxHP).lives <= v.lives
  {
  }
}
