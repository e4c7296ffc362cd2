/** Byte sequences, and what overwriting a stretch of one changes. */
module Bytes {

  type byte = b: int | 0 <= b < 256

  /** The bytes with a stretch of them replaced. */
  function Spliced(bytes: seq<byte>, at: nat, part: seq<byte>): (r: seq<byte>)
    requires at + |part| <= |bytes|
    ensures |r| == |bytes|
  {
    bytes[..at] + part + bytes[at + |part|..]
  }

  /** Each byte of a splice is the old one outside the stretch and the new one inside it. */
  lemma SplicedAt(bytes: seq<byte>, at: nat, part: seq<byte>, k: nat)
    requires at + |part| <= |bytes| && k < |bytes|
    ensures Spliced(bytes, at, part)[k] == if at <= k < at + |part| then part[k - at] else bytes[k]
  {
  }

  /** A splice seen in a stretch that holds it. */
  lemma SplicedInside(bytes: seq<byte>, at: nat, part: seq<byte>, low: nat, high: nat)
    requires low <= at && at + |part| <= high <= |bytes|
    ensures Spliced(bytes, at, part)[low..high] == Spliced(bytes[low..high], at - low, part)
  {
  }

  /** A splice seen in a stretch beside it. */
  lemma SplicedBeside(bytes: seq<byte>, at: nat, part: seq<byte>, low: nat, high: nat)
    requires at + |part| <= |bytes| && low <= high <= |bytes| && (high <= at || at + |part| <= low)
    ensures Spliced(bytes, at, part)[low..high] == bytes[low..high]
  {
  }

  /** Splicing into what was spliced splices the inner part. */
  lemma SplicedTwice(bytes: seq<byte>, low: nat, middle: seq<byte>, at: nat, part: seq<byte>)
    requires low + |middle| <= |bytes| && at + |part| <= |middle|
    ensures Spliced(Spliced(bytes, low, middle), low + at, part) == Spliced(bytes, low, Spliced(middle, at, part))
  {
  }
}
