/** Per-frame keyboard handling that feeds the world: choosing the block to
    place with the number keys, and toggling wireframe drawing with Enter
    once per press. */
module Input {
  import opened Blocks

  /** The number keys that choose the block to place. */
  datatype NumberKey = Key1 | Key2 | Key3 | Key4 | Key5

  /** The block each number key selects. */
  function KeyBlock(k: NumberKey): BlockType {
    match k
    case Key1 => Dirt
    case Key2 => Cobblestone
    case Key3 => Sand
    case Key4 => Wood
    case Key5 => Glass
  }

  /** The number printed on a key. */
  function KeyNumber(k: NumberKey): int {
    match k
    case Key1 => 1
    case Key2 => 2
    case Key3 => 3
    case Key4 => 4
    case Key5 => 5
  }

  /** The five key tests run one after another, each overwriting the
      selection, so among the number keys held this frame the highest one
      decides; with none held the selection stays. */
  function SelectBlock(current: BlockType, down: set<NumberKey>): (b: BlockType)
    ensures down == {} ==> b == current
    ensures down != {} ==>
      exists k :: k in down && b == KeyBlock(k) &&
        forall k' :: k' in down ==> KeyNumber(k') <= KeyNumber(k)
  {
    var b1 := if Key1 in down then Dirt else current;
    var b2 := if Key2 in down then Cobblestone else b1;
    var b3 := if Key3 in down then Sand else b2;
    var b4 := if Key4 in down then Wood else b3;
    if Key5 in down then Glass else b4
  }

  /** Wireframe flag and the latch that remembers Enter was already down. */
  datatype EnterLatch = EnterLatch(wireframe: bool, enterHeld: bool)

  /** One frame of the Enter handling: the flag flips on the frame Enter
      goes down and not again until it has been released. */
  function StepEnter(s: EnterLatch, enterDown: bool): (t: EnterLatch)
    ensures t.enterHeld == enterDown
    ensures t.wireframe != s.wireframe <==> enterDown && !s.enterHeld
  {
    if enterDown then
      if !s.enterHeld then EnterLatch(!s.wireframe, true) else s
    else
      s.(enterHeld := false)
  }

  /** The latch state after a sequence of frames. */
  function RunEnter(s: EnterLatch, frames: seq<bool>): EnterLatch
    decreases |frames|
  {
    if |frames| == 0 then s else RunEnter(StepEnter(s, frames[0]), frames[1..])
  }

  /** Number of frames on which Enter goes from up to down, counting from a
      previous frame in state `held`. */
  function Presses(held: bool, frames: seq<bool>): nat
    decreases |frames|
  {
    if |frames| == 0 then 0
    else (if frames[0] && !held then 1 else 0) + Presses(frames[0], frames[1..])
  }

  /** Over any run of frames the flag has flipped once per press, so it
      ends changed exactly when the number of presses is odd; holding Enter
      down for many frames counts as one press. */
  lemma {:induction false} WireframeTogglesOncePerPress(s: EnterLatch, frames: seq<bool>)
    ensures RunEnter(s, frames).wireframe == (if Presses(s.enterHeld, frames) % 2 == 1 then !s.wireframe else s.wireframe)
    ensures |frames| > 0 ==> RunEnter(s, frames).enterHeld == frames[|frames| - 1]
    decreases |frames|
  {
    if |frames| > 0 {
      var t := StepEnter(s, frames[0]);
      WireframeTogglesOncePerPress(t, frames[1..]);
      if |frames| > 1 {
        assert frames[1..][|frames[1..]| - 1] == frames[|frames| - 1];
      }
    }
  }
}
