/** The vocabulary of the turn controller: action kinds, the current-turn
    record, history entries and the announcement each kind produces. */
module Turns {
  import opened Board

  /** The action kinds passed to `switch_turn`; `EnemyMove` is the patrol's
      "enemy_move", the one kind without a template of its own. */
  datatype Action = Move | Build | Needle | Amulet | Teleport | Normal | Vision | Scout | EnemyMove

  /** `game_state["current_turn"]`. */
  datatype Turn = Turn(number: int, active: Player)

  /** One entry of `turn_history` (its wall-clock timestamp left out). */
  datatype HistoryEntry = HistoryEntry(turn: int, player: Player, action: Action, extra: string)

  /** The character each slot plays, as the announcements name them. */
  function CharacterName(p: Player): string
  {
    if p == P1 then "reimu" else "marisa"
  }

  /** The announcement `switch_turn` renders for an action kind. */
  function TurnMessage(actor: string, action: Action, extra: string): (m: string)
    ensures |m| > |actor|
    ensures action in {Move, Build, Normal, Scout, EnemyMove} ==> m[..|actor|] == actor
  {
    match action
    case Move => actor + " 進行了移動"
    case Build => actor + " 進行了建造"
    case Needle => "霰術：「Persuasion Needle」\n" + actor + " 發射了封魔針"
    case Amulet => "霊耗：「Homing Amulet」\n" + actor + " 發射了符札"
    case Teleport => "秘奧：「G Free」\n" + actor + " 閃現到了\n半徑為[" + extra + "]內的一格"
    case Normal => actor + " 發動了普通攻擊"
    case Vision => "策法：「陰陽寶玉」\n" + actor + " 獲得了\n半徑為[" + extra + "]的視野"
    case Scout => actor + " 發動了偵察，\n暴露敵方位置1回合"
    case EnemyMove => actor + " 進行了行動"
  }

  /** Different action kinds of the same player are announced differently,
      and the enemy's move is announced with the generic text. */
  lemma MessagesDistinguishKinds(p: Player, a1: Action, a2: Action, extra: string)
    requires a1 != a2
    ensures TurnMessage(CharacterName(p), a1, extra) != TurnMessage(CharacterName(p), a2, extra)
  {
    var name := CharacterName(p);
    var m1 := TurnMessage(name, a1, extra);
    var m2 := TurnMessage(name, a2, extra);
    if m1[0] != m2[0] {
      // the kinds with a spell-card heading start with the heading
    } else if |m1| != |m2| {
      // e.g. a normal attack and a scout
    } else {
      // "move", "build" and the generic text part at the verb
      assert m1[|name| + 4] != m2[|name| + 4];
    }
  }

  function DigitChar(d: int): char
    requires 0 <= d < 10
  {
    (d + '0' as int) as char
  }

  /** Python's `str` on a non-negative integer: decimal digits, no leading zero. */
  function NatToString(n: nat): (s: string)
    ensures |s| >= 1
    ensures forall i :: 0 <= i < |s| ==> '0' <= s[i] <= '9'
    ensures n > 0 ==> s[0] != '0'
    decreases n
  {
    if n < 10 then [DigitChar(n)] else NatToString(n / 10) + [DigitChar(n % 10)]
  }

  /** The value of a string of decimal digits. */
  function DigitsValue(s: string): int
  {
    if s == [] then 0 else DigitsValue(s[..|s| - 1]) * 10 + (s[|s| - 1] as int - '0' as int)
  }

  /** The number written into a vision or teleport announcement reads back
      as the mana that was spent. */
  lemma {:induction false} NatToStringRoundTrip(n: nat)
    ensures DigitsValue(NatToString(n)) == n
    decreases n
  {
    if n >= 10 {
      var s := NatToString(n);
      assert s[..|s| - 1] == NatToString(n / 10);
      NatToStringRoundTrip(n / 10);
    }
  }
}
