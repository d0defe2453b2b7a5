/** The bot's adapter between the game and the policy network: the
    normalised feature vector the network reads, and the translation of
    the network's ten outputs into button presses for the bot's slot.
    The network itself is outside this model; its answer for a frame is
    an input here. */
module Bot {
  import opened Game

  // Normalisation constants observed from the game's data.
  const MaxHealth: real := 176.0
  const MaxX: real := 393.0
  const MaxY: real := 192.0
  const MaxTimer: real := 153.0
  const MaxMoveId: real := 33686533.0

  const FeatureCount: nat := 15
  const ButtonCount: nat := 10

  /** A button is pressed when the network's output is strictly above this. */
  const PressThreshold: real := 0.5

  /** The network's answer for one frame: one value per combat button. */
  type Prediction = p: seq<real> | |p| == ButtonCount
    witness [0.0, 0.0, 0.0, 0.0, 0.0, 0.0, 0.0, 0.0, 0.0, 0.0]

  /** A boolean game flag as a network input. */
  function Flag(b: bool): (r: real)
    ensures r == 1.0 || r == 0.0
    ensures r == 1.0 <==> b
  {
    if b then 1.0 else 0.0
  }

  /** The five features describing the bot's own player. */
  function SelfFeatures(me: Player): (v: seq<real>)
    ensures |v| == 5
    ensures v[0] == me.health as real / MaxHealth
    ensures v[1] == me.x as real / MaxX
    ensures v[2] == me.y as real / MaxY
    ensures v[3] == 1.0 <==> me.isJumping
    ensures v[4] == 1.0 <==> me.isCrouching
  {
    [me.health as real / MaxHealth, me.x as real / MaxX, me.y as real / MaxY,
     Flag(me.isJumping), Flag(me.isCrouching)]
  }

  /** The seven features describing the opponent: the bot's five, plus
      whether it is in a move and which one. */
  function OpponentFeatures(opp: Player): (v: seq<real>)
    ensures |v| == 7
    ensures v[..5] == SelfFeatures(opp)
    ensures v[5] == 1.0 <==> opp.isInMove
    ensures v[6] == opp.moveId as real / MaxMoveId
  {
    SelfFeatures(opp) + [Flag(opp.isInMove), opp.moveId as real / MaxMoveId]
  }

  /** The normalised feature vector for one frame, from the point of view of
      the given slot. The relational features are the differences of the
      bot's and the opponent's normalised position and health. */
  function InputVector(snap: Snapshot, slot: string): (v: seq<real>)
    ensures |v| == FeatureCount
    ensures v[..5] == SelfFeatures(Me(snap, slot))
    ensures v[5..12] == OpponentFeatures(Opponent(snap, slot))
    ensures v[14] == snap.timer as real / MaxTimer
    ensures forall k :: k in {3, 4, 8, 9, 10} ==> v[k] == 0.0 || v[k] == 1.0
    ensures v[3] == 1.0 <==> Me(snap, slot).isJumping
    ensures v[4] == 1.0 <==> Me(snap, slot).isCrouching
    ensures v[8] == 1.0 <==> Opponent(snap, slot).isJumping
    ensures v[9] == 1.0 <==> Opponent(snap, slot).isCrouching
    ensures v[10] == 1.0 <==> Opponent(snap, slot).isInMove
    ensures v[12] == v[1] - v[6]
    ensures v[13] == v[0] - v[5]
  {
    var me := Me(snap, slot);
    var opp := Opponent(snap, slot);
    SelfFeatures(me) + OpponentFeatures(opp)
      + [(me.x - opp.x) as real / MaxX,
         (me.health - opp.health) as real / MaxHealth,
         snap.timer as real / MaxTimer]
  }

  /** Seen from the other slot, the bot's and the opponent's own features
      trade places, the relational features change sign and the timer stays. */
  lemma PerspectiveFeatures(snap: Snapshot)
    ensures
      var one := InputVector(snap, "1");
      var two := InputVector(snap, "2");
      && one[..5] == two[5..10]
      && two[..5] == one[5..10]
      && one[12] == -two[12]
      && one[13] == -two[13]
      && one[14] == two[14]
  {
  }

  /** Every slot other than "1" sees the frame as slot "1" would see the
      same frame with the players exchanged. */
  lemma OtherSlotIsSwappedFrame(snap: Snapshot, slot: string)
    requires slot != "1"
    ensures InputVector(snap, slot) == InputVector(Swapped(snap), "1")
  {
  }

  /** The combat button at position i of the network's output: up, down,
      left, right, Y, B, A, X, L, R. */
  function Pressed(b: Buttons, i: nat): bool
    requires i < ButtonCount
  {
    match i
    case 0 => b.up
    case 1 => b.down
    case 2 => b.left
    case 3 => b.right
    case 4 => b.y
    case 5 => b.b
    case 6 => b.a
    case 7 => b.x
    case 8 => b.l
    case _ => b.r
  }

  /** A pad is determined by its ten combat buttons together with select
      and start. */
  lemma PadExtensionality(p: Buttons, q: Buttons)
    requires forall i :: 0 <= i < ButtonCount ==> Pressed(p, i) == Pressed(q, i)
    requires p.select == q.select && p.start == q.start
    ensures p == q
  {
    assert p.up == q.up by { assert Pressed(p, 0) == Pressed(q, 0); }
    assert p.down == q.down by { assert Pressed(p, 1) == Pressed(q, 1); }
    assert p.left == q.left by { assert Pressed(p, 2) == Pressed(q, 2); }
    assert p.right == q.right by { assert Pressed(p, 3) == Pressed(q, 3); }
    assert p.y == q.y by { assert Pressed(p, 4) == Pressed(q, 4); }
    assert p.b == q.b by { assert Pressed(p, 5) == Pressed(q, 5); }
    assert p.a == q.a by { assert Pressed(p, 6) == Pressed(q, 6); }
    assert p.x == q.x by { assert Pressed(p, 7) == Pressed(q, 7); }
    assert p.l == q.l by { assert Pressed(p, 8) == Pressed(q, 8); }
    assert p.r == q.r by { assert Pressed(p, 9) == Pressed(q, 9); }
  }

  /** The pad the network's answer asks for: each combat button pressed
      exactly when its output is strictly above the threshold; select and
      start never pressed. */
  function Threshold(p: Prediction): (b: Buttons)
    ensures forall i :: 0 <= i < ButtonCount ==> (Pressed(b, i) <==> p[i] > PressThreshold)
    ensures !b.select && !b.start
  {
    Buttons(p[0] > PressThreshold, p[1] > PressThreshold,
            p[2] > PressThreshold, p[3] > PressThreshold,
            false, false,
            p[4] > PressThreshold, p[5] > PressThreshold,
            p[6] > PressThreshold, p[7] > PressThreshold,
            p[8] > PressThreshold, p[9] > PressThreshold)
  }

  /** A network answer that asks for exactly the given combat buttons. */
  function Confident(b: Buttons): (p: Prediction)
    ensures forall i :: 0 <= i < ButtonCount ==> p[i] == (if Pressed(b, i) then 1.0 else 0.0)
  {
    seq(ButtonCount, i requires 0 <= i < ButtonCount => if Pressed(b, i) then 1.0 else 0.0)
  }

  /** Thresholding recovers every pad that has select and start released
      from a confident answer for it; so every such pad is reachable. */
  lemma ThresholdRecoversPad(b: Buttons)
    requires !b.select && !b.start
    ensures Threshold(Confident(b)) == b
  {
  }

  /** One frame of fighting: the thresholded pad goes to the bot's own slot
      ("1" writes the first pad, "2" the second); the other pad, and both
      pads for any other slot, are left as they were. */
  function Fight(cmd: Command, slot: string, p: Prediction): (r: Command)
    ensures slot == "1" ==> r.player == Threshold(p) && r.player2 == cmd.player2
    ensures slot == "2" ==> r.player2 == Threshold(p) && r.player == cmd.player
    ensures !IsSlot(slot) ==> r == cmd
    ensures IsSlot(slot) ==>
      var pad := if slot == "1" then r.player else r.player2;
      !pad.select && !pad.start
  {
    if slot == "1" then cmd.(player := Threshold(p))
    else if slot == "2" then cmd.(player2 := Threshold(p))
    else cmd
  }
}
