/** The mutable game: the map layout, the wall health tables, the player
    stats, the session record and the enemy timer, with the operations
    that change them in place. Each operation is proved to leave exactly
    the state its function in `Actions` or `State` describes. */
module Game {
  import opened Board
  import opened Visibility
  import opened Rules
  import opened Turns
  import opened Projectiles
  import opened State
  import opened Actions

  /** The game's global state: one field per global table of the program,
      and the enemy timer. */
  class GameState {
    var layout: Layout
    var wallHealth: map<Cell, int>
    var wallTotal: map<Cell, int>
    var stats: Stats
    var session: Session
    var enemyTimerArmed: bool

    ghost function View(): World
      reads this
    {
      World(layout, wallHealth, wallTotal, stats, session, enemyTimerArmed)
    }

    ghost predicate Valid()
      reads this
    {
      ValidState(View())
    }

    /** The state at start-up: the map's spawn cells and walls, every wall
        at the map's starting health, turn 1 with P1 to act. */
    constructor (p1Spawn: Cell, p2Spawn: Cell, wallCells: seq<Cell>, wallStartHealth: int)
      requires InBounds(p2Spawn) && NoDup(wallCells) && wallStartHealth >= 1
      ensures Valid()
      ensures View() == World(Layout(p1Spawn, p2Spawn, wallCells),
                              map c | c in wallCells :: wallStartHealth,
                              map c | c in wallCells :: wallStartHealth,
                              Stats(StartingMana, StartingEnemyHp),
                              Session(Turn(1, P1), 1, None, None, [], [], [OpeningLog], 0,
                                      false, false, false, None, None, [], [], 0),
                              false)
    {
      layout := Layout(p1Spawn, p2Spawn, wallCells);
      wallHealth := map c | c in wallCells :: wallStartHealth;
      wallTotal := map c | c in wallCells :: wallStartHealth;
      stats := Stats(StartingMana, StartingEnemyHp);
      session := Session(Turn(1, P1), 1, None, None, [], [], [OpeningLog], 0,
                         false, false, false, None, None, [], [], 0);
      enemyTimerArmed := false;
    }

    method AddAnnouncement(msg: string)
      requires Valid()
      modifies this
      ensures View() == Announce(old(View()), msg)
      ensures Valid()
    {
      session := session.(announcements := [msg]);
    }

    method FinalizeTurnAnnouncements()
      requires Valid()
      modifies this
      ensures View() == Finalize(old(View()))
      ensures Valid()
    {
      session := session.(gameLogs := session.announcements, announcements := []);
    }

    /** `switch_turn` (and `finish_turn`, which only forwards to it): the
        history entry, the action's announcement finalized into the log,
        and the hand-over. */
    method SwitchTurn(action: Action, extra: string)
      modifies this
      ensures View() == EndTurn(old(View()), action, extra)
      ensures old(Valid()) ==> Valid()
    {
      EndTurnFrame(View(), action, extra);
      var active := session.turn.active;
      var logged := session.(history := session.history + [HistoryEntry(session.turn.number, active, action, extra)],
                             announcements := [], gameLogs := [TurnMessage(CharacterName(active), action, extra)]);
      if active == P1 {
        session := logged.(turn := Turn(session.turn.number, P2));
        enemyTimerArmed := true;
      } else {
        session := logged.(visionBoost := DecayBoost(session.visionBoost), recon := None,
                           turn := Turn(session.turn.number + 1, P1));
      }
    }

    method AutoEnemyAction()
      requires Valid()
      modifies this
      ensures View() == OnEnemyAction(old(View()))
      ensures Valid()
    {
      var step := PatrolStep(layout.p2.y, session.enemyDirection);
      session := session.(enemyDirection := step.1);
      layout := layout.(p2 := Cell(layout.p2.x, step.0));
      session := session.(announcements := [], gameLogs := [EnemyMoveAnnouncement]);
      SwitchTurn(EnemyMove, "");
      EnemyActionKeepsValid(old(View()));
    }

    method EnemyTimerFires()
      requires Valid()
      modifies this
      ensures View() == OnEnemyTimer(old(View()))
      ensures Valid()
    {
      if enemyTimerArmed {
        enemyTimerArmed := false;
        AutoEnemyAction();
      }
    }

    method Cancel()
      requires Valid()
      modifies this
      ensures View() == OnCancel(old(View()))
      ensures Valid()
    {
      session := session.(moving := false, aiming := false, building := false,
                          selectedSkill := None, hoveredSkill := None);
    }

    method BasicAttack(trail: seq<Cell>)
      requires Valid() && ValidTrail(trail)
      modifies this
      ensures View() == OnBasicAttack(old(View()), trail)
      ensures Valid()
    {
      var shots := Copies(Bullet(BasicShot, Some(session.turn.active), trail, {}), P1Attack);
      session := session.(bulletQueue := session.bulletQueue + shots);
      session := session.(announcements := [AttackAnnouncement]);
      SwitchTurn(Normal, "");
      BasicAttackKeepsValid(old(View()), trail);
    }

    method MoveClick(t: Cell)
      requires Valid()
      modifies this
      ensures View() == OnMoveClick(old(View()), t)
      ensures Valid()
    {
      if MoveAccepted(t, layout.p1, layout.p2, layout.walls) {
        var orthogonal := Orthogonal(layout.p1, t);
        layout := layout.(p1 := t);
        if orthogonal {
          stats := stats.(mana := stats.mana + 1);
        }
        session := session.(moving := false);
        session := session.(announcements := [MoveAnnouncement]);
        SwitchTurn(Move, "");
      }
      MoveKeepsValid(old(View()), t);
    }

    method BuildClick(t: Cell)
      requires Valid()
      modifies this
      ensures View() == OnBuildClick(old(View()), t)
      ensures Valid()
    {
      if BuildAccepted(t, layout.p1, layout.p2, layout.walls, session.manaInput, stats.mana) {
        var used := session.manaInput;
        stats := stats.(mana := stats.mana - used);
        layout := layout.(walls := layout.walls + [t]);
        wallHealth := wallHealth[t := used];
        wallTotal := wallTotal[t := used];
      }
      session := session.(building := false);
      session := session.(announcements := [BuildAnnouncement]);
      SwitchTurn(Build, "");
      BuildKeepsValid(old(View()), t);
    }

    method CastVision()
      requires Valid()
      modifies this
      ensures View() == OnCastVision(old(View()))
      ensures Valid()
    {
      if session.manaInput > 0 {
        if stats.mana >= session.manaInput {
          PayForVision();
        } else {
          session := session.(selectedSkill := None);
        }
      }
      CastVisionKeepsValid(old(View()));
    }

    /** The affordable branch of a vision cast: the slot selected, the mana
        spent, the boost set, the announcement, the hand-over, and the slot
        cleared again. */
    method PayForVision()
      requires 0 < session.manaInput <= stats.mana
      modifies this
      ensures View() == OnCastVision(old(View()))
    {
      session := session.(selectedSkill := Some(3));
      var used := session.manaInput;
      stats := stats.(mana := stats.mana - used);
      session := session.(visionBoost := Some(Boost(used, used)), announcements := [VisionAnnouncement(used)]);
      SwitchTurn(Vision, NatToString(used));
      session := session.(selectedSkill := None);
    }

    method ScoutEnemy()
      requires Valid()
      modifies this
      ensures View() == OnScout(old(View()))
      ensures Valid()
    {
      if stats.mana >= 1 {
        stats := stats.(mana := stats.mana - 1);
        session := session.(recon := Some(layout.p2));
        session := session.(announcements := [ScoutAnnouncement]);
        SwitchTurn(Scout, "");
      }
      ScoutKeepsValid(old(View()));
    }

    method FireNeedle(trail: seq<Cell>)
      requires Valid() && ValidTrail(trail) && session.manaInput > 0
      modifies this
      ensures View() == OnFireNeedle(old(View()), trail)
      ensures Valid()
    {
      if stats.mana >= session.manaInput {
        var n := session.manaInput;
        stats := stats.(mana := stats.mana - n);
        session := session.(bulletQueue := Copies(Bullet(NeedleShot, None, trail, {}), n), manaInput := 0);
        session := session.(announcements := [NeedleAnnouncement]);
        SwitchTurn(Needle, "");
      }
      NeedleKeepsValid(old(View()), trail);
    }

    method FireAmulet(trail: seq<Cell>)
      requires Valid() && ValidTrail(trail)
      modifies this
      ensures View() == OnFireAmulet(old(View()), trail)
      ensures Valid()
    {
      if stats.mana >= 1 {
        stats := stats.(mana := stats.mana - 1);
        session := session.(bulletQueue := session.bulletQueue + [Bullet(AmuletShot, None, trail, {})]);
        session := session.(announcements := [AmuletAnnouncement]);
        SwitchTurn(Amulet, "");
      }
      AmuletKeepsValid(old(View()), trail);
    }

    method TeleportTo(t: Cell)
      requires Valid() && session.manaInput > 0
      modifies this
      ensures View() == OnTeleport(old(View()), t)
      ensures Valid()
    {
      if stats.mana >= session.manaInput {
        var used := session.manaInput;
        stats := stats.(mana := stats.mana - used);
        layout := layout.(p1 := t);
        session := session.(announcements := [TeleportAnnouncement(used)]);
        SwitchTurn(Teleport, NatToString(used));
      }
      TeleportKeepsValid(old(View()), t);
    }

    method AimedClick(t: Cell, trail: seq<Cell>)
      requires Valid() && ValidTrail(trail)
      modifies this
      ensures View() == OnAimedClick(old(View()), t, trail)
      ensures Valid()
    {
      if session.selectedSkill == Some(1) && session.manaInput > 0 {
        FireNeedle(trail);
      } else if session.selectedSkill == Some(2) {
        FireAmulet(trail);
      } else if session.selectedSkill == Some(4) && session.manaInput > 0 {
        TeleportTo(t);
      }
      session := session.(aiming := false, selectedSkill := None);
    }

    method ChooseSkill(slot: int)
      requires Valid()
      modifies this
      ensures View() == OnChooseSkill(old(View()), slot)
      ensures Valid()
    {
      if slot == 1 || slot == 4 {
        if session.manaInput > 0 {
          session := session.(selectedSkill := Some(slot), aiming := true);
        }
      } else if slot == 2 {
        session := session.(selectedSkill := Some(slot), aiming := true);
      }
    }

    method Hover(t: Cell)
      requires Valid()
      modifies this
      ensures View() == OnHover(old(View()), t)
      ensures Valid()
    {
      if !session.aiming {
        session := session.(hoveredSkill := SkillSlotAt(t));
      }
    }

    method PressManaButton(up: bool)
      requires Valid()
      modifies this
      ensures View() == OnManaButton(old(View()), up)
      ensures Valid()
    {
      if up {
        session := session.(manaInput := IncreasedInput(session.manaInput, stats.mana));
      } else {
        session := session.(manaInput := DecreasedInput(session.manaInput));
      }
    }

    method SkillBarClick(t: Cell, trail: seq<Cell>)
      requires Valid() && ValidTrail(trail)
      modifies this
      ensures View() == OnSkillBarClick(old(View()), t, trail)
      ensures Valid()
    {
      if session.hoveredSkill == Some(3) {
        CastVision();
        return;
      }
      if t == BuildButton && session.manaInput > 0 {
        session := session.(building := true);
        return;
      }
      if t == ScoutButton && session.manaInput > 0 {
        ScoutEnemy();
        return;
      }
      if t == layout.p1 {
        session := session.(moving := true, aiming := false);
        return;
      }
      if session.aiming {
        AimedClick(t, trail);
      } else if session.hoveredSkill.Some? {
        ChooseSkill(session.hoveredSkill.value);
      } else if t == ManaDownButton {
        PressManaButton(false);
      } else if t == ManaUpButton {
        PressManaButton(true);
      }
    }

    method HandleInput(ev: Event)
      requires Valid() && (ev.LeftClick? ==> ValidTrail(ev.trail))
      modifies this
      ensures View() == OnInput(old(View()), ev)
      ensures Valid()
    {
      if session.turn.active != P1 {
        return;
      }
      match ev
      case RightClick =>
        Cancel();
      case MouseMotion(px, py) =>
        if !session.moving {
          Hover(CellAt(px, py));
        }
      case LeftClick(px, py, trail) =>
        var t := CellAt(px, py);
        if IsAttackTarget(t, layout.p1, layout.p2, layout.walls) {
          BasicAttack(trail);
          return;
        }
        if session.moving {
          MoveClick(t);
          return;
        }
        if session.building {
          BuildClick(t);
        }
        SkillBarClick(t, trail);
      case OtherEvent =>
    }

    /** One bullet's advance, applied to the tables in place; the result
        is the bullet if it is still flying. */
    method AdvanceBullet(b: Bullet, normalSingleHit: bool) returns (kept: Option<Bullet>)
      requires SoundArena(ArenaOf(View())) && ValidTrail(b.trail)
      modifies this
      ensures var s := StepBullet(ArenaOf(old(View())), b, normalSingleHit);
              View() == WithArena(old(View()), s.arena) && kept == s.kept
    {
      var cell := b.trail[0];
      var moved := b.(trail := b.trail[1..]);
      var flying := InBounds(cell);
      if flying && cell in layout.walls {
        if SingleHit(b.kind, normalSingleHit) {
          wallHealth := wallHealth[cell := wallHealth[cell] - 1];
          if wallHealth[cell] <= 0 {
            layout := layout.(walls := RemoveFirst(layout.walls, cell));
          }
          flying := false;
        } else if b.kind == AmuletShot && cell !in b.hit {
          wallHealth := wallHealth[cell := wallHealth[cell] - 1];
          moved := moved.(hit := b.hit + {cell});
          if wallHealth[cell] <= 0 {
            layout := layout.(walls := RemoveFirst(layout.walls, cell));
          }
        }
      }
      if flying && cell == layout.p2 {
        if SingleHit(b.kind, normalSingleHit) {
          stats := stats.(enemyHp := stats.enemyHp - 1);
          flying := false;
        } else if b.kind == AmuletShot && cell !in moved.hit {
          stats := stats.(enemyHp := stats.enemyHp - 1, mana := stats.mana + 1);
          moved := moved.(hit := moved.hit + {cell});
        }
      }
      kept := if flying then Some(moved) else None;
    }

    /** The opening step of each half of `update_bullets`: the head of the
        queue is shot once more than the interval has passed. */
    method SpawnShot(now: int)
      modifies this
      ensures View() == Spawn(old(View()), now)
    {
      if |session.bulletQueue| > 0 && now - session.lastShotTime > ShotIntervalMs {
        var shot := session.bulletQueue[0];
        if shot.kind == AmuletShot {
          shot := shot.(hit := {});
        }
        session := session.(bulletQueue := session.bulletQueue[1..], bullets := session.bullets + [shot],
                            lastShotTime := now);
      }
    }

    /** The loop of `update_bullets` over a copy of the active list: each
        bullet advanced in order; the result is the bullets still flying. */
    method StepBullets(active: seq<Bullet>, normalSingleHit: bool) returns (kept: seq<Bullet>)
      requires SoundArena(ArenaOf(View())) && AllValidTrails(active)
      modifies this
      ensures var r := Pass(ArenaOf(old(View())), active, normalSingleHit);
              View() == WithArena(old(View()), r.arena) && kept == r.survivors
    {
      ghost var start := View();
      kept := [];
      var i := 0;
      while i < |active|
        invariant 0 <= i <= |active|
        invariant View() == WithArena(start, Pass(ArenaOf(start), active[..i], normalSingleHit).arena)
        invariant kept == Pass(ArenaOf(start), active[..i], normalSingleHit).survivors
      {
        ghost var before := Pass(ArenaOf(start), active[..i], normalSingleHit);
        ghost var step := StepBullet(before.arena, active[i], normalSingleHit);
        ArenaRoundTrip(start, before.arena, step.arena);
        assert active[..i + 1][..i] == active[..i];
        var k := AdvanceBullet(active[i], normalSingleHit);
        if k.Some? {
          kept := kept + [k.value];
        }
        i := i + 1;
      }
      assert active[..i] == active;
    }

    /** One half of `update_bullets`. */
    method BulletPass(now: int, normalSingleHit: bool)
      requires Valid()
      modifies this
      ensures View() == BulletPassSpec(old(View()), now, normalSingleHit)
    {
      SpawnShot(now);
      var kept := StepBullets(session.bullets, normalSingleHit);
      session := session.(bullets := kept);
    }

    /** `update_bullets` as one frame calls it: the first half, where
        basic-attack shots stop at what they hit, then the second half,
        where only needles do, each half reading the clock once. */
    method UpdateBullets(now1: int, now2: int)
      requires Valid()
      modifies this
      ensures Valid()
      ensures View() == Frame(old(View()), now1, now2)
    {
      BulletPass(now1, true);
      BulletPass(now2, false);
    }
  }
}
