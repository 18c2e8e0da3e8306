/** Every branch of `handle_input` and the enemy patrol, each as a function
    from the state before to the state after, with what it promises. */
module Actions {
  import opened Board
  import opened Visibility
  import opened Rules
  import opened Turns
  import opened Projectiles
  import opened State

  /** What `handle_input` and the patrol post just before ending a turn. */
  const AttackAnnouncement := CharacterName(P1) + " 發動了普通攻擊"
  const MoveAnnouncement := CharacterName(P1) + " 進行了移動"
  const BuildAnnouncement := CharacterName(P1) + " 進行了建造"
  const ScoutAnnouncement := "偵察：敵方機體位置已暴露1回合"
  const NeedleAnnouncement := "霰術：「Persuasion Needle」\n靈夢發射了封魔針"
  const AmuletAnnouncement := "霊耗：「Homing Amulet」\n靈夢發射了符札"
  const EnemyMoveAnnouncement := CharacterName(P2) + " 進行了移動"

  function VisionAnnouncement(n: nat): string
  {
    "策法：「陰陽寶玉」\n靈夢獲得了\n半徑為[" + NatToString(n) + "]的視野"
  }

  function TeleportAnnouncement(n: nat): string
  {
    "秘奧：「G Free」\n靈夢閃現到了半徑為[" + NatToString(n) + "]內的一格"
  }

  /** The input events `handle_input` reacts to, with the mouse position in
      pixels; a left click also carries the flight of the shot it would aim. */
  datatype Event =
    | LeftClick(px: int, py: int, trail: seq<Cell>)
    | RightClick
    | MouseMotion(px: int, py: int)
    | OtherEvent

  /** `auto_enemy_action`: P2 steps one row along its patrol, turning back
      at the map's edge, and its turn ends. It never leaves the map and
      never stands still; walls do not stop it. */
  function OnEnemyAction(v: World): (r: World)
    ensures var step := PatrolStep(v.layout.p2.y, v.session.enemyDirection);
            r.layout == v.layout.(p2 := Cell(v.layout.p2.x, step.0)) &&
            r.session.enemyDirection == step.1
    ensures TurnEnded(v, r, EnemyMove, "")
    ensures r.stats == v.stats && r.wallHealth == v.wallHealth && r.wallTotal == v.wallTotal
  {
    var step := PatrolStep(v.layout.p2.y, v.session.enemyDirection);
    var moved := v.(layout := v.layout.(p2 := Cell(v.layout.p2.x, step.0)),
                    session := v.session.(enemyDirection := step.1));
    var announced := Finalize(Announce(moved, EnemyMoveAnnouncement));
    EndTurnHandsOver(announced, EnemyMove, "");
    EndTurnFrame(announced, EnemyMove, "");
    EndTurn(announced, EnemyMove, "")
  }

  /** The one-shot enemy timer going off: the patrol runs once per arming,
      and on P2's turn it hands control back to P1 and leaves the timer
      disarmed. */
  function OnEnemyTimer(v: World): (r: World)
    ensures !v.enemyTimerArmed ==> r == v
    ensures v.enemyTimerArmed ==> TurnEnded(v, r, EnemyMove, "")
    ensures v.enemyTimerArmed && v.session.turn.active == P2 ==>
              !r.enemyTimerArmed && r.session.turn == Turn(v.session.turn.number + 1, P1)
  {
    if v.enemyTimerArmed then OnEnemyAction(v.(enemyTimerArmed := false)) else v
  }

  /** A right click: every mode and selection is cancelled, nothing else. */
  function OnCancel(v: World): (r: World)
    ensures !r.session.moving && !r.session.aiming && !r.session.building
    ensures r.session.selectedSkill.None? && r.session.hoveredSkill.None?
    ensures r.(session := v.session) == v
    ensures r.session.(moving := v.session.moving, aiming := v.session.aiming,
                       building := v.session.building, selectedSkill := v.session.selectedSkill,
                       hoveredSkill := v.session.hoveredSkill) == v.session
    ensures ValidState(v) ==> ValidState(r)
  {
    v.(session := v.session.(moving := false, aiming := false, building := false,
                             selectedSkill := None, hoveredSkill := None))
  }

  /** A basic attack: one slow shot (P1's attack stat worth) owned by the
      player to act joins the end of the queue, and the turn ends. */
  function OnBasicAttack(v: World, trail: seq<Cell>): (r: World)
    ensures r.session.bulletQueue ==
              v.session.bulletQueue + [Bullet(BasicShot, Some(v.session.turn.active), trail, {})]
    ensures TurnEnded(v, r, Normal, "")
    ensures r.layout == v.layout && r.stats == v.stats
  {
    var shot := Bullet(BasicShot, Some(v.session.turn.active), trail, {});
    var shots := Copies(shot, P1Attack);
    assert shots == [shot];
    var announced := Announce(v.(session := v.session.(bulletQueue := v.session.bulletQueue + shots)), AttackAnnouncement);
    EndTurnHandsOver(announced, Normal, "");
    EndTurnFrame(announced, Normal, "");
    EndTurn(announced, Normal, "")
  }

  /** A left click in move mode: an accepted step moves P1 there, refunds
      one mana when it runs along a row or a column, leaves move mode and
      ends the turn; any other click changes nothing. */
  function OnMoveClick(v: World, t: Cell): (r: World)
    ensures MoveAccepted(t, v.layout.p1, v.layout.p2, v.layout.walls) ==>
              r.layout == v.layout.(p1 := t) && r.wallHealth == v.wallHealth && r.wallTotal == v.wallTotal && !r.session.moving &&
              r.stats.mana == v.stats.mana + (if Orthogonal(v.layout.p1, t) then 1 else 0) &&
              TurnEnded(v, r, Move, "")
    ensures !MoveAccepted(t, v.layout.p1, v.layout.p2, v.layout.walls) ==> r == v
  {
    if MoveAccepted(t, v.layout.p1, v.layout.p2, v.layout.walls) then
      var mana := if Orthogonal(v.layout.p1, t) then v.stats.mana + 1 else v.stats.mana;
      var stepped := v.(layout := v.layout.(p1 := t), stats := v.stats.(mana := mana),
                        session := v.session.(moving := false));
      var announced := Announce(stepped, MoveAnnouncement);
      EndTurnHandsOver(announced, Move, "");
      EndTurnFrame(announced, Move, "");
      EndTurn(announced, Move, "")
    else v
  }

  /** A left click in build mode: an accepted cell becomes the last wall,
      with health and total both the mana spent; accepted or not, build
      mode ends and so does the turn. */
  function OnBuildClick(v: World, t: Cell): (r: World)
    ensures TurnEnded(v, r, Build, "") && !r.session.building
    ensures !BuildAccepted(t, v.layout.p1, v.layout.p2, v.layout.walls, v.session.manaInput, v.stats.mana) ==>
              r.layout == v.layout && r.wallHealth == v.wallHealth && r.wallTotal == v.wallTotal &&
              r.stats == v.stats
  {
    var n := v.session.manaInput;
    var built :=
      if BuildAccepted(t, v.layout.p1, v.layout.p2, v.layout.walls, n, v.stats.mana) then
        v.(stats := v.stats.(mana := v.stats.mana - n), layout := v.layout.(walls := v.layout.walls + [t]),
           wallHealth := v.wallHealth[t := n], wallTotal := v.wallTotal[t := n])
      else v;
    var announced := Announce(built.(session := built.session.(building := false)), BuildAnnouncement);
    EndTurnHandsOver(announced, Build, "");
    EndTurnFrame(announced, Build, "");
    EndTurn(announced, Build, "")
  }

  /** An accepted build appends the cell to the wall list with health and
      total both equal to the mana spent, which is at least one. */
  lemma BuildAddsWall(v: World, t: Cell)
    requires BuildAccepted(t, v.layout.p1, v.layout.p2, v.layout.walls, v.session.manaInput, v.stats.mana)
    ensures var r := OnBuildClick(v, t);
            var n := v.session.manaInput;
            r.layout == v.layout.(walls := v.layout.walls + [t]) &&
            r.wallHealth == v.wallHealth[t := n] && r.wallTotal == v.wallTotal[t := n] &&
            n >= 1 && r.stats.mana == v.stats.mana - n
  {
  }

  /** Skill 3, cast straight from the skill bar: a positive input that
      mana covers buys a boost of that many turns and that radius and ends
      the turn, recording the input; the selection is cleared whenever the
      input is positive. Cast during P2's turn (after a build click), the
      boost has already lost a turn when control comes back. */
  function OnCastVision(v: World): (r: World)
    ensures var n := v.session.manaInput;
            n > 0 && v.stats.mana >= n ==>
              r.layout == v.layout && r.wallHealth == v.wallHealth && r.wallTotal == v.wallTotal &&
              r.stats.mana == v.stats.mana - n && r.session.selectedSkill.None? &&
              r.session.visionBoost == (if v.session.turn.active == P1 then Some(Boost(n, n))
                                        else DecayBoost(Some(Boost(n, n)))) &&
              TurnEnded(v, r, Vision, NatToString(n))
    ensures var n := v.session.manaInput;
            n > 0 && v.stats.mana < n ==> r == v.(session := v.session.(selectedSkill := None))
    ensures v.session.manaInput <= 0 ==> r == v
  {
    var n := v.session.manaInput;
    if n <= 0 then v
    else if v.stats.mana >= n then
      var paid := v.(stats := v.stats.(mana := v.stats.mana - n),
                     session := v.session.(selectedSkill := Some(3), visionBoost := Some(Boost(n, n))));
      var announced := Announce(paid, VisionAnnouncement(n));
      EndTurnHandsOver(announced, Vision, NatToString(n));
      EndTurnFrame(announced, Vision, NatToString(n));
      var cast := EndTurn(announced, Vision, NatToString(n));
      cast.(session := cast.session.(selectedSkill := None))
    else v.(session := v.session.(selectedSkill := None))
  }

  /** The number a vision cast writes into the history reads back as the
      mana it spent. */
  lemma VisionRecordsSpentMana(v: World)
    requires v.session.manaInput > 0 && v.stats.mana >= v.session.manaInput
    ensures var r := OnCastVision(v);
            |r.session.history| == |v.session.history| + 1 &&
            DigitsValue(r.session.history[|v.session.history|].extra) == v.session.manaInput
  {
    NatToStringRoundTrip(v.session.manaInput);
  }

  /** The scout button: one mana marks P2's present cell and ends the turn.
      Only a scout on P1's turn is still marked afterwards; one that runs
      on P2's turn (after a build click) is forgotten at once. */
  function OnScout(v: World): (r: World)
    ensures v.stats.mana >= 1 ==>
              r.layout == v.layout && r.wallHealth == v.wallHealth && r.wallTotal == v.wallTotal &&
              r.stats.mana == v.stats.mana - 1 && TurnEnded(v, r, Scout, "") &&
              r.session.recon == (if v.session.turn.active == P1 then Some(v.layout.p2) else None)
    ensures v.stats.mana < 1 ==> r == v
  {
    if v.stats.mana >= 1 then
      var paid := v.(stats := v.stats.(mana := v.stats.mana - 1),
                     session := v.session.(recon := Some(v.layout.p2)));
      var announced := Announce(paid, ScoutAnnouncement);
      EndTurnHandsOver(announced, Scout, "");
      EndTurnFrame(announced, Scout, "");
      EndTurn(announced, Scout, "")
    else v
  }

  /** Skill 1 fired: when mana covers the input, that many needles replace
      whatever was queued, the counter resets and the turn ends. */
  function OnFireNeedle(v: World, trail: seq<Cell>): (r: World)
    requires v.session.manaInput > 0
    ensures var n := v.session.manaInput;
            v.stats.mana >= n ==>
              |r.session.bulletQueue| == n &&
              (forall b :: b in r.session.bulletQueue ==> b == Bullet(NeedleShot, None, trail, {})) &&
              r.layout == v.layout && r.wallHealth == v.wallHealth && r.wallTotal == v.wallTotal &&
              r.stats.mana == v.stats.mana - n && r.session.manaInput == 0 &&
              TurnEnded(v, r, Needle, "")
    ensures v.stats.mana < v.session.manaInput ==> r == v
  {
    var n := v.session.manaInput;
    if v.stats.mana >= n then
      var paid := v.(stats := v.stats.(mana := v.stats.mana - n),
                     session := v.session.(bulletQueue := Copies(Bullet(NeedleShot, None, trail, {}), n),
                                           manaInput := 0));
      var announced := Announce(paid, NeedleAnnouncement);
      EndTurnHandsOver(announced, Needle, "");
      EndTurnFrame(announced, Needle, "");
      EndTurn(announced, Needle, "")
    else v
  }

  /** Skill 2 fired: one mana queues one amulet behind what is waiting. */
  function OnFireAmulet(v: World, trail: seq<Cell>): (r: World)
    ensures v.stats.mana >= 1 ==>
              r.session.bulletQueue == v.session.bulletQueue + [Bullet(AmuletShot, None, trail, {})] &&
              r.layout == v.layout && r.wallHealth == v.wallHealth && r.wallTotal == v.wallTotal &&
              r.stats.mana == v.stats.mana - 1 && TurnEnded(v, r, Amulet, "")
    ensures v.stats.mana < 1 ==> r == v
  {
    if v.stats.mana >= 1 then
      var paid := v.(stats := v.stats.(mana := v.stats.mana - 1),
                     session := v.session.(bulletQueue := v.session.bulletQueue +
                                                          [Bullet(AmuletShot, None, trail, {})]));
      var announced := Announce(paid, AmuletAnnouncement);
      EndTurnHandsOver(announced, Amulet, "");
      EndTurnFrame(announced, Amulet, "");
      EndTurn(announced, Amulet, "")
    else v
  }

  /** Skill 4 fired: when mana covers the input, P1 lands on the clicked
      cell, whatever it holds and however far it is, and the turn ends. */
  function OnTeleport(v: World, t: Cell): (r: World)
    requires v.session.manaInput > 0
    ensures TeleportAccepted(v.session.manaInput, v.stats.mana) ==>
              r.layout == v.layout.(p1 := t) && r.wallHealth == v.wallHealth && r.wallTotal == v.wallTotal &&
              r.stats.mana == v.stats.mana - v.session.manaInput &&
              TurnEnded(v, r, Teleport, NatToString(v.session.manaInput))
    ensures !TeleportAccepted(v.session.manaInput, v.stats.mana) ==> r == v
  {
    var n := v.session.manaInput;
    if v.stats.mana >= n then
      var paid := v.(stats := v.stats.(mana := v.stats.mana - n), layout := v.layout.(p1 := t));
      var announced := Announce(paid, TeleportAnnouncement(n));
      EndTurnHandsOver(announced, Teleport, NatToString(n));
      EndTurnFrame(announced, Teleport, NatToString(n));
      EndTurn(announced, Teleport, NatToString(n))
    else v
  }

  /** Whether a click while aiming fires the selected skill. */
  predicate AimedShotFires(v: World)
  {
    var s := v.session;
    (s.selectedSkill == Some(1) && s.manaInput > 0 && v.stats.mana >= s.manaInput) ||
    (s.selectedSkill == Some(2) && v.stats.mana >= 1) ||
    (s.selectedSkill == Some(4) && TeleportAccepted(s.manaInput, v.stats.mana))
  }

  /** A left click while aiming: the selected skill fires (skills 1 and 4
      only with a positive input), then aiming and the selection end. The
      turn ends exactly when the skill fires. */
  function OnAimedClick(v: World, t: Cell, trail: seq<Cell>): (r: World)
    ensures !r.session.aiming && r.session.selectedSkill.None?
    ensures var s := v.session;
            s.selectedSkill == Some(1) && s.manaInput > 0 && v.stats.mana >= s.manaInput ==>
              TurnEnded(v, r, Needle, "")
    ensures v.session.selectedSkill == Some(2) && v.stats.mana >= 1 ==> TurnEnded(v, r, Amulet, "")
    ensures var s := v.session;
            s.selectedSkill == Some(4) && TeleportAccepted(s.manaInput, v.stats.mana) ==>
              TurnEnded(v, r, Teleport, NatToString(s.manaInput))
    ensures !AimedShotFires(v) ==> r == v.(session := v.session.(aiming := false, selectedSkill := None))
  {
    var s := v.session;
    var fired :=
      if s.selectedSkill == Some(1) && s.manaInput > 0 then OnFireNeedle(v, trail)
      else if s.selectedSkill == Some(2) then OnFireAmulet(v, trail)
      else if s.selectedSkill == Some(4) && s.manaInput > 0 then OnTeleport(v, t)
      else v;
    fired.(session := fired.session.(aiming := false, selectedSkill := None))
  }

  /** Whether a click on skill slot `slot` selects it: skills 1 and 4 need
      a positive input, skill 2 does not. */
  predicate Selectable(slot: int, input: int)
  {
    ((slot == 1 || slot == 4) && input > 0) || slot == 2
  }

  /** A click on a hovered skill slot while not aiming: a selectable slot
      is selected and aiming starts; nothing else changes. */
  function OnChooseSkill(v: World, slot: int): (r: World)
    ensures Selectable(slot, v.session.manaInput) ==>
              r.session.selectedSkill == Some(slot) && r.session.aiming
    ensures !Selectable(slot, v.session.manaInput) ==> r == v
    ensures r.(session := v.session) == v
    ensures r.session.(selectedSkill := v.session.selectedSkill, aiming := v.session.aiming) == v.session
  {
    if slot == 1 || slot == 4 then
      if v.session.manaInput > 0 then v.(session := v.session.(selectedSkill := Some(slot), aiming := true))
      else v
    else if slot == 2 then v.(session := v.session.(selectedSkill := Some(slot), aiming := true))
    else v
  }

  /** Mouse motion outside aim mode: the hovered slot becomes the one under
      the cursor, or none. */
  function OnHover(v: World, t: Cell): (r: World)
    ensures r.session.hoveredSkill == if v.session.aiming then v.session.hoveredSkill else SkillSlotAt(t)
    ensures r.(session := v.session) == v
    ensures r.session.(hoveredSkill := v.session.hoveredSkill) == v.session
  {
    if v.session.aiming then v else v.(session := v.session.(hoveredSkill := SkillSlotAt(t)))
  }

  /** The two counter buttons; only the counter changes. */
  function OnManaButton(v: World, up: bool): (r: World)
    ensures r.(session := v.session) == v
    ensures r.session.(manaInput := v.session.manaInput) == v.session
    ensures up ==> r.session.manaInput == IncreasedInput(v.session.manaInput, v.stats.mana)
    ensures !up ==> r.session.manaInput == DecreasedInput(v.session.manaInput)
    ensures ValidState(v) ==> ValidState(r)
  {
    if up then v.(session := v.session.(manaInput := IncreasedInput(v.session.manaInput, v.stats.mana)))
    else v.(session := v.session.(manaInput := DecreasedInput(v.session.manaInput)))
  }

  /** The left-click part of the skill section of `handle_input`, in its
      order: skill 3 under the cursor, the build button, the scout button,
      P1's own cell, a shot while aiming, a skill slot, and the two counter
      buttons. At most one turn ends. */
  function OnSkillBarClick(v: World, t: Cell, trail: seq<Cell>): (r: World)
    ensures var s := v.session;
            s.hoveredSkill != Some(3) && t == BuildButton && s.manaInput > 0 ==>
              r == v.(session := s.(building := true))
    ensures var s := v.session;
            s.hoveredSkill != Some(3) && t != BuildButton && t != ScoutButton && t == v.layout.p1 ==>
              r == v.(session := s.(moving := true, aiming := false))
  {
    var s := v.session;
    if s.hoveredSkill == Some(3) then OnCastVision(v)
    else if t == BuildButton && s.manaInput > 0 then v.(session := s.(building := true))
    else if t == ScoutButton && s.manaInput > 0 then OnScout(v)
    else if t == v.layout.p1 then v.(session := s.(moving := true, aiming := false))
    else if s.aiming then OnAimedClick(v, t, trail)
    else if s.hoveredSkill.Some? then OnChooseSkill(v, s.hoveredSkill.value)
    else if t == ManaDownButton then OnManaButton(v, false)
    else if t == ManaUpButton then OnManaButton(v, true)
    else v
  }

  /** `handle_input`: ignored unless P1 is to act; a right click cancels;
      mouse motion outside move mode tracks the hovered slot; a left click
      is a basic attack when it targets a neighbouring wall or P2, else a
      move in move mode, else a skill-bar click, preceded in build mode by
      a build that does not stop there. One click ends at most two turns. */
  function OnInput(v: World, ev: Event): (r: World)
    ensures v.session.turn.active != P1 || ev.OtherEvent? ==> r == v
    ensures v.session.turn.active == P1 && ev.RightClick? ==> r == OnCancel(v)
    ensures v.session.turn.active == P1 && ev.LeftClick? &&
            IsAttackTarget(CellAt(ev.px, ev.py), v.layout.p1, v.layout.p2, v.layout.walls) ==>
              TurnEnded(v, r, Normal, "")
    ensures v.session.turn.active == P1 && ev.MouseMotion? ==>
              r == if v.session.moving then v else OnHover(v, CellAt(ev.px, ev.py))
    ensures v.session.turn.active == P1 && ev.LeftClick? && v.session.moving &&
            !IsAttackTarget(CellAt(ev.px, ev.py), v.layout.p1, v.layout.p2, v.layout.walls) ==>
              r == OnMoveClick(v, CellAt(ev.px, ev.py))
  {
    if v.session.turn.active != P1 then v
    else
      match ev
      case RightClick => OnCancel(v)
      case MouseMotion(px, py) => if v.session.moving then v else OnHover(v, CellAt(px, py))
      case LeftClick(px, py, trail) =>
        var t := CellAt(px, py);
        if IsAttackTarget(t, v.layout.p1, v.layout.p2, v.layout.walls) then OnBasicAttack(v, trail)
        else if v.session.moving then OnMoveClick(v, t)
        else
          var built := if v.session.building then OnBuildClick(v, t) else v;
          OnSkillBarClick(built, t, trail)
      case OtherEvent => v
  }

  /** The patrol keeps the state valid and always moves P2 exactly one row. */
  lemma EnemyActionKeepsValid(v: World)
    requires ValidState(v)
    ensures var r := OnEnemyAction(v);
            ValidState(r) && Abs(r.layout.p2.y - v.layout.p2.y) == 1
  {
  }

  lemma EnemyTimerKeepsValid(v: World)
    requires ValidState(v)
    ensures ValidState(OnEnemyTimer(v))
  {
    if v.enemyTimerArmed {
      EnemyActionKeepsValid(v.(enemyTimerArmed := false));
    }
  }

  lemma BasicAttackKeepsValid(v: World, trail: seq<Cell>)
    requires ValidState(v) && ValidTrail(trail)
    ensures ValidState(OnBasicAttack(v, trail))
  {
  }

  lemma MoveKeepsValid(v: World, t: Cell)
    requires ValidState(v)
    ensures ValidState(OnMoveClick(v, t))
  {
  }

  lemma BuildKeepsValid(v: World, t: Cell)
    requires ValidState(v)
    ensures ValidState(OnBuildClick(v, t))
  {
    var n := v.session.manaInput;
    if BuildAccepted(t, v.layout.p1, v.layout.p2, v.layout.walls, n, v.stats.mana) {
      AddWallSound(v.layout.walls, v.wallHealth, v.wallTotal, t, n);
    }
  }

  lemma CastVisionKeepsValid(v: World)
    requires ValidState(v)
    ensures ValidState(OnCastVision(v))
  {
  }

  lemma ScoutKeepsValid(v: World)
    requires ValidState(v)
    ensures ValidState(OnScout(v))
  {
  }

  lemma NeedleKeepsValid(v: World, trail: seq<Cell>)
    requires ValidState(v) && ValidTrail(trail) && v.session.manaInput > 0
    ensures ValidState(OnFireNeedle(v, trail))
  {
  }

  lemma AmuletKeepsValid(v: World, trail: seq<Cell>)
    requires ValidState(v) && ValidTrail(trail)
    ensures ValidState(OnFireAmulet(v, trail))
  {
  }

  lemma TeleportKeepsValid(v: World, t: Cell)
    requires ValidState(v) && v.session.manaInput > 0
    ensures ValidState(OnTeleport(v, t))
  {
  }

  lemma AimedClickKeepsValid(v: World, t: Cell, trail: seq<Cell>)
    requires ValidState(v) && ValidTrail(trail)
    ensures ValidState(OnAimedClick(v, t, trail))
  {
    var s := v.session;
    if s.selectedSkill == Some(1) && s.manaInput > 0 {
      NeedleKeepsValid(v, trail);
    } else if s.selectedSkill == Some(2) {
      AmuletKeepsValid(v, trail);
    } else if s.selectedSkill == Some(4) && s.manaInput > 0 {
      TeleportKeepsValid(v, t);
    }
  }

  lemma SkillBarClickKeepsValid(v: World, t: Cell, trail: seq<Cell>)
    requires ValidState(v) && ValidTrail(trail)
    ensures ValidState(OnSkillBarClick(v, t, trail))
  {
    var s := v.session;
    if s.hoveredSkill == Some(3) {
      CastVisionKeepsValid(v);
    } else if t == BuildButton && s.manaInput > 0 {
    } else if t == ScoutButton && s.manaInput > 0 {
      ScoutKeepsValid(v);
    } else if t == v.layout.p1 {
    } else if s.aiming {
      AimedClickKeepsValid(v, t, trail);
    }
  }

  /** Every input keeps the state valid: sound walls, mana never negative,
      the counter within [0, 99], every flight ending off the map and P2 on
      the map. */
  lemma InputKeepsValid(v: World, ev: Event)
    requires ValidState(v) && (ev.LeftClick? ==> ValidTrail(ev.trail))
    ensures ValidState(OnInput(v, ev))
  {
    if v.session.turn.active == P1 && ev.LeftClick? {
      var t := CellAt(ev.px, ev.py);
      if IsAttackTarget(t, v.layout.p1, v.layout.p2, v.layout.walls) {
        BasicAttackKeepsValid(v, ev.trail);
      } else if v.session.moving {
        MoveKeepsValid(v, t);
      } else {
        var built := if v.session.building then OnBuildClick(v, t) else v;
        if v.session.building {
          BuildKeepsValid(v, t);
        }
        SkillBarClickKeepsValid(built, t, ev.trail);
      }
    }
  }

  /** `w` keeps `v`'s history and adds at most `k` entries to it. */
  predicate Appended(v: World, w: World, k: nat)
  {
    v.session.history <= w.session.history && |w.session.history| <= |v.session.history| + k
  }

  lemma TurnEndedAppendsOne(v: World, w: World, action: Action, extra: string)
    requires TurnEnded(v, w, action, extra)
    ensures Appended(v, w, 1)
  {
  }

  /** A click while aiming records one entry exactly when the skill fires. */
  lemma AimedClickAppends(v: World, t: Cell, trail: seq<Cell>)
    ensures var r := OnAimedClick(v, t, trail);
            Appended(v, r, 1) &&
            |r.session.history| == |v.session.history| + (if AimedShotFires(v) then 1 else 0)
  {
    var s := v.session;
    var r := OnAimedClick(v, t, trail);
    if s.selectedSkill == Some(1) && s.manaInput > 0 && v.stats.mana >= s.manaInput {
      TurnEndedAppendsOne(v, r, Needle, "");
    } else if s.selectedSkill == Some(2) && v.stats.mana >= 1 {
      TurnEndedAppendsOne(v, r, Amulet, "");
    } else if s.selectedSkill == Some(4) && TeleportAccepted(s.manaInput, v.stats.mana) {
      TurnEndedAppendsOne(v, r, Teleport, NatToString(s.manaInput));
    }
  }

  /** A skill-bar click ends at most one turn. */
  lemma SkillBarClickAppends(v: World, t: Cell, trail: seq<Cell>)
    ensures Appended(v, OnSkillBarClick(v, t, trail), 1)
  {
    var s := v.session;
    var n := s.manaInput;
    if s.hoveredSkill == Some(3) {
      if n > 0 && v.stats.mana >= n {
        TurnEndedAppendsOne(v, OnCastVision(v), Vision, NatToString(n));
      }
    } else if t == BuildButton && n > 0 {
    } else if t == ScoutButton && n > 0 {
      if v.stats.mana >= 1 {
        TurnEndedAppendsOne(v, OnScout(v), Scout, "");
      }
    } else if t == v.layout.p1 {
    } else if s.aiming {
      AimedClickAppends(v, t, trail);
    }
  }

  /** With skill 4 aimed and affordable, a click lands P1 on the clicked
      cell, whatever it holds and however far it is, unless the click is
      taken first as a basic attack, a bar button or P1's own cell. */
  lemma TeleportLandsOnClickedCell(v: World, px: int, py: int, trail: seq<Cell>)
    requires v.session.turn.active == P1 && !v.session.moving && !v.session.building
    requires v.session.aiming && v.session.selectedSkill == Some(4) && v.session.hoveredSkill != Some(3)
    requires TeleportAccepted(v.session.manaInput, v.stats.mana)
    requires var t := CellAt(px, py);
             !IsAttackTarget(t, v.layout.p1, v.layout.p2, v.layout.walls) &&
             t != BuildButton && t != ScoutButton && t != v.layout.p1
    ensures var r := OnInput(v, LeftClick(px, py, trail));
            r.layout.p1 == CellAt(px, py) && r.stats.mana == v.stats.mana - v.session.manaInput &&
            TurnEnded(v, r, Teleport, NatToString(v.session.manaInput))
  {
  }

  /** From anywhere on the map, an affordable teleport aimed at the cell
      (5, 10), below the map, puts P1 off the map, on a cell its own
      indicator does not accept. */
  lemma TeleportCanLeaveTheMap(v: World, trail: seq<Cell>)
    requires v.session.turn.active == P1 && !v.session.moving && !v.session.building
    requires v.session.aiming && v.session.selectedSkill == Some(4) && v.session.hoveredSkill != Some(3)
    requires TeleportAccepted(v.session.manaInput, v.stats.mana) && InBounds(v.layout.p1)
    ensures var r := OnInput(v, LeftClick(5 * GridSize, 10 * GridSize, trail));
            r.layout.p1 == Cell(5, 10) && !InBounds(r.layout.p1) &&
            !TeleportIndicatorValid(Cell(5, 10), v.layout.p1, v.layout.walls, v.session.manaInput)
  {
    var t := CellAt(5 * GridSize, 10 * GridSize);
    assert t == Cell(5, 10);
    assert Chebyshev(t, v.layout.p1) >= 2;
    TeleportLandsOnClickedCell(v, 5 * GridSize, 10 * GridSize, trail);
  }

  /** One input never rewrites the history and ends at most two turns: a
      build click in build mode and the skill-bar action it falls through to. */
  lemma InputAppendsAtMostTwo(v: World, ev: Event)
    ensures Appended(v, OnInput(v, ev), 2)
  {
    if v.session.turn.active == P1 && ev.LeftClick? {
      var t := CellAt(ev.px, ev.py);
      if IsAttackTarget(t, v.layout.p1, v.layout.p2, v.layout.walls) {
        TurnEndedAppendsOne(v, OnBasicAttack(v, ev.trail), Normal, "");
      } else if v.session.moving {
        if MoveAccepted(t, v.layout.p1, v.layout.p2, v.layout.walls) {
          TurnEndedAppendsOne(v, OnMoveClick(v, t), Move, "");
        }
      } else {
        var built := if v.session.building then OnBuildClick(v, t) else v;
        if v.session.building {
          TurnEndedAppendsOne(v, built, Build, "");
        }
        SkillBarClickAppends(built, t, ev.trail);
      }
    }
  }

  /** Build mode does not end the click: a click on the scout button in
      build mode ends P1's turn with a failed build, then spends a mana on
      a scout that ends P2's turn, whose mark is forgotten at once, and P1
      is to act again without the patrol having moved. */
  lemma BuildClickFallsThroughToScout(v: World, trail: seq<Cell>)
    requires v.session.turn.active == P1 && v.session.building && !v.session.moving
    requires v.session.hoveredSkill != Some(3) && v.session.manaInput > 0 && v.stats.mana >= 1
    requires ScoutButton !in v.layout.walls && InBounds(v.layout.p2)
    ensures var r := OnInput(v, LeftClick(ScoutButton.x * GridSize, ScoutButton.y * GridSize, trail));
            |r.session.history| == |v.session.history| + 2 &&
            r.session.history[|v.session.history|].action == Build &&
            r.session.history[|v.session.history| + 1] ==
              HistoryEntry(v.session.turn.number, P2, Scout, "") &&
            r.session.turn == Turn(v.session.turn.number + 1, P1) &&
            r.layout == v.layout && r.stats.mana == v.stats.mana - 1 && r.session.recon.None?
  {
    var t := CellAt(ScoutButton.x * GridSize, ScoutButton.y * GridSize);
    assert t == ScoutButton;
    assert !InBounds(t);
    var built := OnBuildClick(v, t);
    EndTurnHandsOver(v.(session := v.session.(building := false)), Build, "");
    assert built.session.turn == Turn(v.session.turn.number, P2);
    assert OnInput(v, LeftClick(ScoutButton.x * GridSize, ScoutButton.y * GridSize, trail)) == OnScout(built);
  }
}
