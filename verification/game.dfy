/** The records exchanged with the emulator once per frame: the game-state
    snapshot it sends and the button command it receives back. Only the
    fields the bot and the controller read or write are kept. */
module Game {

  /** A health reading. The emulator reports an unsigned byte, and the value
      255 is the sentinel for a knocked-out (or unreadable) player. */
  type Health = h: int | 0 <= h <= 255

  const KnockedOut: Health := 255

  /** The health both players start a round with. */
  const FullHealth: Health := 176

  datatype Player = Player(
    health: Health,
    x: int,
    y: int,
    isJumping: bool,
    isCrouching: bool,
    isInMove: bool,
    moveId: int)

  datatype Snapshot = Snapshot(
    player1: Player,
    player2: Player,
    timer: int,
    hasRoundStarted: bool,
    isRoundOver: bool,
    fightResult: string)

  /** One pad: the ten combat buttons plus select and start. */
  datatype Buttons = Buttons(
    up: bool, down: bool, left: bool, right: bool,
    select: bool, start: bool,
    y: bool, b: bool, a: bool, x: bool, l: bool, r: bool)

  const Released := Buttons(false, false, false, false, false, false,
                            false, false, false, false, false, false)

  /** The command sent back each frame: one pad per player slot. */
  datatype Command = Command(player: Buttons, player2: Buttons)

  /** A freshly constructed command: nothing pressed on either pad. */
  const Fresh := Command(Released, Released)

  /** The controller is started for player slot "1" or "2". */
  predicate IsSlot(slot: string) {
    slot == "1" || slot == "2"
  }

  /** The player the bot controls: slot "1" plays player 1, any other slot
      plays player 2. */
  function Me(snap: Snapshot, slot: string): Player {
    if slot == "1" then snap.player1 else snap.player2
  }

  function Opponent(snap: Snapshot, slot: string): Player {
    if slot == "1" then snap.player2 else snap.player1
  }

  /** The result string that announces a win for the other player. */
  function MirrorResult(result: string): string {
    if result == "P1" then "P2" else if result == "P2" then "P1" else result
  }

  /** The same frame seen with the two players' roles exchanged. */
  function Swapped(snap: Snapshot): (r: Snapshot)
    ensures r.player1 == snap.player2 && r.player2 == snap.player1
  {
    snap.(player1 := snap.player2, player2 := snap.player1,
          fightResult := MirrorResult(snap.fightResult))
  }
}
