/** The game's global state as one value, what every operation keeps true
    of it, `switch_turn` with its announcement helpers, and both halves of
    `update_bullets`. */
module State {
  import opened Board
  import opened Visibility
  import opened Turns
  import opened Projectiles
  import opened Rules

  /** Least pause between two shots leaving the queue, in milliseconds. */
  const ShotIntervalMs := 100

  /** Starting values of P1's mana and P2's hp. */
  const StartingMana := 20
  const StartingEnemyHp := 20

  /** The log shown before the first turn ends. */
  const OpeningLog := "遊戲開始"

  /** `map_layout`: the two units' cells (P1 first) and the wall list. */
  datatype Layout = Layout(p1: Cell, p2: Cell, walls: seq<Cell>)

  /** The entries of `PLAYER_STATS` the core changes: P1's mana and P2's hp. */
  datatype Stats = Stats(mana: int, enemyHp: int)

  /** `game_state`: the turn record, the patrol direction, the vision boost,
      the scouted cell, the turn history, the pending and the shown
      announcements, the mana-input counter, the three mode flags, the
      selected and hovered skill slots, the bullet queue, the active
      bullets and the time of the last shot. */
  datatype Session = Session(
    turn: Turn, enemyDirection: int, visionBoost: Option<Boost>, recon: Option<Cell>,
    history: seq<HistoryEntry>, announcements: seq<string>, gameLogs: seq<string>,
    manaInput: int, moving: bool, aiming: bool, building: bool,
    selectedSkill: Option<int>, hoveredSkill: Option<int>,
    bulletQueue: seq<Bullet>, bullets: seq<Bullet>, lastShotTime: int)

  /** Everything the core reads or writes; `enemyTimerArmed` stands for the
      one-shot enemy timer. */
  datatype World = World(layout: Layout, wallHealth: map<Cell, int>, wallTotal: map<Cell, int>,
                         stats: Stats, session: Session, enemyTimerArmed: bool)

  /** What every operation keeps: sound walls, mana never negative, the
      counter within [0, 99], every bullet's flight ending off the map, P2
      on the map and the patrol moving one row at a time. */
  predicate ValidState(v: World)
  {
    WallsSound(v.layout.walls, v.wallHealth, v.wallTotal) &&
    v.stats.mana >= 0 && 0 <= v.session.manaInput <= ManaInputCap &&
    AllValidTrails(v.session.bulletQueue) && AllValidTrails(v.session.bullets) &&
    InBounds(v.layout.p2) && (v.session.enemyDirection == 1 || v.session.enemyDirection == -1)
  }

  /** `add_announcement`: only the latest message is kept. */
  function Announce(v: World, msg: string): World
  {
    v.(session := v.session.(announcements := [msg]))
  }

  /** `finalize_turn_announcements`: the pending messages become the log. */
  function Finalize(v: World): World
  {
    v.(session := v.session.(gameLogs := v.session.announcements, announcements := []))
  }

  /** `w` follows `v` by one turn ending that recorded `action`: one
      history entry naming the turn, the player and the action, control
      with the other player, and that action's announcement as the log. */
  predicate TurnEnded(v: World, w: World, action: Action, extra: string)
  {
    w.session.history ==
      v.session.history + [HistoryEntry(v.session.turn.number, v.session.turn.active, action, extra)] &&
    w.session.turn.active == Opponent(v.session.turn.active) &&
    w.session.announcements == [] &&
    w.session.gameLogs == [TurnMessage(CharacterName(v.session.turn.active), action, extra)]
  }

  /** `switch_turn`: record the action, show its announcement as the new
      log and hand control to the other player; when control returns to
      P1 the boost decays, the scouted cell is forgotten and the turn
      number advances, and when it passes to P2 the enemy timer is armed. */
  function EndTurn(v: World, action: Action, extra: string): World
  {
    var s := v.session;
    var active := s.turn.active;
    var recorded := s.(history := s.history + [HistoryEntry(s.turn.number, active, action, extra)],
                       announcements := [], gameLogs := [TurnMessage(CharacterName(active), action, extra)]);
    if active == P1 then
      v.(session := recorded.(turn := Turn(s.turn.number, P2)), enemyTimerArmed := true)
    else
      v.(session := recorded.(visionBoost := DecayBoost(s.visionBoost), recon := None,
                              turn := Turn(s.turn.number + 1, P1)))
  }

  /** Every turn ending is recorded, hands control over, advances the
      turn number only when control returns to P1, decays the boost and
      forgets the scouted cell only then, and arms the enemy timer when
      control passes to P2. */
  lemma EndTurnHandsOver(v: World, action: Action, extra: string)
    ensures var w := EndTurn(v, action, extra);
            TurnEnded(v, w, action, extra) &&
            w.session.turn.number ==
              (if v.session.turn.active == P1 then v.session.turn.number else v.session.turn.number + 1)
    ensures var w := EndTurn(v, action, extra);
            v.session.turn.active == P1 ==>
              w.enemyTimerArmed && w.session.visionBoost == v.session.visionBoost &&
              w.session.recon == v.session.recon
    ensures var w := EndTurn(v, action, extra);
            v.session.turn.active == P2 ==>
              w.enemyTimerArmed == v.enemyTimerArmed &&
              w.session.visionBoost == DecayBoost(v.session.visionBoost) && w.session.recon.None?
  {
  }

  /** Ending a turn touches nothing but the history, the announcements,
      the turn record, the boost, the scouted cell and the timer, and so
      keeps the state valid. */
  lemma EndTurnFrame(v: World, action: Action, extra: string)
    ensures var w := EndTurn(v, action, extra);
            w.layout == v.layout && w.wallHealth == v.wallHealth && w.wallTotal == v.wallTotal &&
            w.stats == v.stats &&
            w.session.(history := v.session.history, announcements := v.session.announcements,
                       gameLogs := v.session.gameLogs, turn := v.session.turn,
                       visionBoost := v.session.visionBoost, recon := v.session.recon) == v.session
    ensures ValidState(v) ==> ValidState(EndTurn(v, action, extra))
  {
  }

  /** Whatever was posted before a turn ends never reaches the log:
      `switch_turn` overwrites the pending announcement with its own. */
  lemma PendingAnnouncementDiscarded(v: World, msg: string, action: Action, extra: string)
    ensures EndTurn(Announce(v, msg), action, extra) == EndTurn(v, action, extra)
  {
  }

  /** A run of turn endings, each with an empty extra text. */
  function EndTurns(v: World, actions: seq<Action>): World
    decreases |actions|
  {
    if actions == [] then v else EndTurns(EndTurn(v, actions[0], ""), actions[1..])
  }

  /** Turn numbers count completed P1-P2 rounds: after k endings the
      number has grown by the rounds closed, P1 is active exactly when an
      even number of half-turns separates it from the start, the history
      has grown by k entries and the boost has decayed once per return of
      control to P1. */
  lemma {:induction false} TurnNumberAfterSwitches(v: World, actions: seq<Action>)
    ensures var w := EndTurns(v, actions);
            var halves := |actions| + if v.session.turn.active == P2 then 1 else 0;
            w.session.turn.number == v.session.turn.number + halves / 2 &&
            (w.session.turn.active == P1 <==> halves % 2 == 0) &&
            |w.session.history| == |v.session.history| + |actions| &&
            w.session.visionBoost == DecayTimes(v.session.visionBoost, halves / 2)
    decreases |actions|
  {
    if actions != [] {
      var u := EndTurn(v, actions[0], "");
      EndTurnHandsOver(v, actions[0], "");
      TurnNumberAfterSwitches(u, actions[1..]);
    }
  }

  /** A boost bought for two mana is still there on P1's next turn and
      gone on the one after: two full rounds end it. */
  lemma TwoManaBoostLastsOneRound(v: World, a1: Action, a2: Action, a3: Action, a4: Action)
    requires v.session.turn.active == P1 && v.session.visionBoost == Some(Boost(2, 2))
    ensures EndTurns(v, [a1, a2]).session.visionBoost == Some(Boost(1, 2))
    ensures EndTurns(v, [a1, a2, a3, a4]).session.visionBoost.None?
  {
    TurnNumberAfterSwitches(v, [a1, a2]);
    TurnNumberAfterSwitches(v, [a1, a2, a3, a4]);
    BoostLastsRemainingCycles(2, 2, 1);
    BoostLastsRemainingCycles(2, 2, 2);
  }

  /** A shot leaving the queue: an amulet starts with an empty hit set. */
  function Armed(b: Bullet): (r: Bullet)
    ensures r.kind == b.kind && r.owner == b.owner && r.trail == b.trail
    ensures r.hit == if b.kind == AmuletShot then {} else b.hit
  {
    if b.kind == AmuletShot then b.(hit := {}) else b
  }

  /** The opening step of each half of `update_bullets`: once more than
      the shot interval has passed since the last shot, the head of the
      queue becomes active. */
  function Spawn(v: World, now: int): (w: World)
    ensures ValidState(v) ==> ValidState(w)
    ensures !(|v.session.bulletQueue| > 0 && now - v.session.lastShotTime > ShotIntervalMs) ==> w == v
    ensures var s := v.session;
            |s.bulletQueue| > 0 && now - s.lastShotTime > ShotIntervalMs ==>
              w.session.bulletQueue == s.bulletQueue[1..] &&
              w.session.bullets == s.bullets + [Armed(s.bulletQueue[0])] &&
              w.session.lastShotTime == now &&
              w == v.(session := w.session) &&
              w.session.(bulletQueue := s.bulletQueue, bullets := s.bullets, lastShotTime := s.lastShotTime) == s
  {
    var s := v.session;
    if |s.bulletQueue| > 0 && now - s.lastShotTime > ShotIntervalMs then
      v.(session := s.(bulletQueue := s.bulletQueue[1..], bullets := s.bullets + [Armed(s.bulletQueue[0])],
                       lastShotTime := now))
    else v
  }

  /** The part of the state a bullet can touch. */
  function ArenaOf(v: World): Arena
  {
    Arena(v.layout.walls, v.wallHealth, v.wallTotal, v.layout.p2, v.stats.enemyHp, v.stats.mana)
  }

  function WithArena(v: World, a: Arena): World
  {
    v.(layout := v.layout.(walls := a.walls, p2 := a.enemy), wallHealth := a.health,
       wallTotal := a.total, stats := Stats(a.mana, a.enemyHp))
  }

  /** Writing an arena back and reading it again gives it unchanged, and a
      second write overrides the first. */
  lemma ArenaRoundTrip(v: World, a: Arena, b: Arena)
    ensures ArenaOf(WithArena(v, a)) == a
    ensures WithArena(WithArena(v, a), b) == WithArena(v, b)
  {
  }

  /** One half of `update_bullets`: spawn, then step every active bullet
      once, keeping the ones still flying in their order. Only the walls,
      P2's hp, P1's mana, the bullet lists and the shot time can change;
      mana only grows and hp only shrinks, each by at most the number of
      bullets stepped. */
  function BulletPassSpec(v: World, now: int, normalSingleHit: bool): (w: World)
    requires ValidState(v)
    ensures ValidState(w)
    ensures w.layout.p1 == v.layout.p1 && w.layout.p2 == v.layout.p2 && w.wallTotal == v.wallTotal
    ensures w.enemyTimerArmed == v.enemyTimerArmed
    ensures w.session.(bulletQueue := v.session.bulletQueue, bullets := v.session.bullets,
                       lastShotTime := v.session.lastShotTime) == v.session
    ensures w.session.bulletQueue == v.session.bulletQueue ||
            (|v.session.bulletQueue| > 0 && w.session.bulletQueue == v.session.bulletQueue[1..])
    ensures |w.session.bullets| <= |v.session.bullets| + 1
    ensures v.stats.mana <= w.stats.mana <= v.stats.mana + |v.session.bullets| + 1
    ensures v.stats.enemyHp - |v.session.bullets| - 1 <= w.stats.enemyHp <= v.stats.enemyHp
  {
    var s := Spawn(v, now);
    var r := Pass(ArenaOf(s), s.session.bullets, normalSingleHit);
    var w := WithArena(s, r.arena);
    w.(session := w.session.(bullets := r.survivors))
  }

  /** Both halves of `update_bullets` in one frame, with the clock read
      once per half. */
  function Frame(v: World, now1: int, now2: int): (w: World)
    requires ValidState(v)
    ensures ValidState(w)
    ensures w.layout.p1 == v.layout.p1 && w.layout.p2 == v.layout.p2 && w.enemyTimerArmed == v.enemyTimerArmed
    ensures w.session.(bulletQueue := v.session.bulletQueue, bullets := v.session.bullets,
                       lastShotTime := v.session.lastShotTime) == v.session
    ensures v.stats.mana <= w.stats.mana && w.stats.enemyHp <= v.stats.enemyHp
  {
    BulletPassSpec(BulletPassSpec(v, now1, true), now2, false)
  }

  /** When the two clock readings of one frame are no more than the shot
      interval apart, at most one bullet leaves the queue in that frame. */
  lemma AtMostOneSpawnPerFrame(v: World, now1: int, now2: int)
    requires ValidState(v) && now1 <= now2 <= now1 + ShotIntervalMs
    ensures var w := Frame(v, now1, now2);
            w.session.bulletQueue == v.session.bulletQueue ||
            (|v.session.bulletQueue| > 0 && w.session.bulletQueue == v.session.bulletQueue[1..])
  {
    var u := BulletPassSpec(v, now1, true);
    if u.session.bulletQueue != v.session.bulletQueue {
      assert u.session.lastShotTime == now1;
      assert Spawn(u, now2) == u;
    }
  }
}
