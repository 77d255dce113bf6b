/** Images as sequences of blocks, whatever stands for the content of a block. */
module Images {
  /** An image of equal blocks. */
  function Blank<T>(blocks: nat, block: T): seq<T> { seq(blocks, _ => block) }

  /** The blocks of a generation laid over an image; those outside it are left out. */
  function Overlay<T>(image: seq<T>, blocks: map<nat, T>): (r: seq<T>)
    ensures |r| == |image|
    ensures forall b :: 0 <= b < |r| ==> r[b] == if b in blocks then blocks[b] else image[b]
  {
    seq(|image|, b requires 0 <= b < |image| => if b in blocks then blocks[b] else image[b])
  }
}
