/**
 The widths of a threshold onion and the counts the router's memory budget buys, for a plane whose lines
 hold `lineSize` points.
 */
module Budget {

  const NONCE_LEN: nat := 12
  const TAG_LEN: nat := 16
  const KEM_CIPHERTEXT_LEN: nat := 1120
  /** A Shamir share of a 32-byte key: `x(1) || y(32)`. */
  const SHARE_LEN: nat := 33
  const SEALED_SHARE_LEN: nat := KEM_CIPHERTEXT_LEN + SHARE_LEN + TAG_LEN
  /** `tag(1) || operand(32) || payload key(32)`. */
  const CMD_LEN: nat := 65
  const TARGET_DEPTH: nat := 3
  const PAYLOAD_TARGET: nat := 9662

  function SlotLen(lineSize: nat): (len: nat)
    ensures len > 0
  {
    NONCE_LEN + 2 + 4 + CMD_LEN + TAG_LEN + lineSize * SEALED_SHARE_LEN
  }

  function OnionLen(lineSize: nat): (len: nat)
    ensures len > 0
  {
    var slot := SlotLen(lineSize);
    TARGET_DEPTH * slot + if PAYLOAD_TARGET > slot then PAYLOAD_TARGET else slot
  }

  /** The circuit depth the slots afford once one slot is kept for the payload, up to the target. */
  function DepthFor(lineSize: nat): nat {
    var n := OnionLen(lineSize) / SlotLen(lineSize);
    if n == 0 then 0 else if n - 1 < TARGET_DEPTH then n - 1 else TARGET_DEPTH
  }

  function HeaderLen(lineSize: nat): nat { DepthFor(lineSize) * SlotLen(lineSize) }

  /** The bucket is derived per plane, so every plane affords the target depth and a payload of a slot or more. */
  lemma {:induction false} EveryPlaneReachesTheTarget(lineSize: nat)
    ensures DepthFor(lineSize) == TARGET_DEPTH
    ensures HeaderLen(lineSize) + PAYLOAD_TARGET <= OnionLen(lineSize)
    ensures HeaderLen(lineSize) + SlotLen(lineSize) <= OnionLen(lineSize)
  {
    var slot, len := SlotLen(lineSize), OnionLen(lineSize);
    QuotientAtLeast(len, slot, 4);
  }

  lemma {:induction false} QuotientAtLeast(a: nat, b: nat, k: nat)
    requires b > 0 && k * b <= a
    ensures k <= a / b
  {
    assert a == a / b * b + a % b;
    assert k * b < (a / b + 1) * b;
  }

  // ----- Memory -----

  const GATHER_SHARE: nat := 64 * 1024 * 1024
  const ROUTER_SHARE: nat := 40 * 1024 * 1024
  const MAX_CANDIDATES: nat := 64
  const RESOLVED_ENTRY_BYTES: nat := 24
  const REPLAY_CACHE_BYTES: nat := 256 * 1024
  const REPLAY_TAG_LEN: nat := 16
  const MAX_REPLAY_TAGS: nat := REPLAY_CACHE_BYTES / REPLAY_TAG_LEN
  /** `tag(1) || line(12)` before the padded onion, and the destination beside the frame. */
  const CELL_OVERHEAD: nat := 13
  const TRIPLE_BYTES: nat := 12

  function PendingEntryBytes(lineSize: nat): nat { OnionLen(lineSize) + MAX_CANDIDATES * SHARE_LEN }

  /** How many entries of a cost a share buys. */
  function Buys(share: nat, cost: nat): nat
    requires cost > 0
  {
    share / cost
  }

  /** How many gathers, each with its attribution entry, the gather share buys. */
  function MaxPending(lineSize: nat): nat { Buys(GATHER_SHARE, PendingEntryBytes(lineSize) + RESOLVED_ENTRY_BYTES) }

  function QueuedCellBytes(lineSize: nat): nat { CELL_OVERHEAD + OnionLen(lineSize) + TRIPLE_BYTES }

  /** How many queued cells the router share buys once the replay cache is paid for. */
  function MaxQueue(lineSize: nat): nat { Buys(ROUTER_SHARE - REPLAY_CACHE_BYTES, QueuedCellBytes(lineSize)) }

  /** The counts are the largest the shares buy, on every plane. */
  lemma {:induction false} CountsAreDerived(lineSize: nat)
    ensures var entry := PendingEntryBytes(lineSize) + RESOLVED_ENTRY_BYTES;
            MaxPending(lineSize) * entry <= GATHER_SHARE < (MaxPending(lineSize) + 1) * entry
    ensures var cell := QueuedCellBytes(lineSize);
            && MaxQueue(lineSize) * cell + REPLAY_CACHE_BYTES <= ROUTER_SHARE
            && ROUTER_SHARE < (MaxQueue(lineSize) + 1) * cell + REPLAY_CACHE_BYTES
  {
    DivisionBounds(GATHER_SHARE, PendingEntryBytes(lineSize) + RESOLVED_ENTRY_BYTES);
    DivisionBounds(ROUTER_SHARE - REPLAY_CACHE_BYTES, QueuedCellBytes(lineSize));
  }

  lemma {:induction false} DivisionBounds(a: nat, b: nat)
    requires b > 0
    ensures a / b * b <= a < (a / b + 1) * b
  {
    assert a == a / b * b + a % b;
  }
}
