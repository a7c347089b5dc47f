/**
 * The board table of the Dog game (`KennelAndStartNumbers`): for each colour its
 * four kennel cells and its start cell on the 64-cell ring 0..63.
 */
module DogBoard {

  /** The four player colours, in the order the table lists them. */
  datatype Colour = Blue | Green | Red | Yellow

  const Colours: seq<Colour> := [Blue, Green, Red, Yellow]

  /** Number of cells on the shared ring. */
  const RingSize: nat := 64

  /** The kennel cells of a colour, in the order the table lists them. */
  function Kennel(c: Colour): (cells: seq<nat>)
    ensures |cells| == 4
  {
    match c
    case Blue => [64, 65, 66, 67]
    case Green => [72, 73, 74, 75]
    case Red => [80, 81, 82, 83]
    case Yellow => [88, 89, 90, 91]
  }

  /** The ring cell where marbles of a colour enter the ring. */
  function Start(c: Colour): nat {
    match c
    case Blue => 0
    case Green => 16
    case Red => 32
    case Yellow => 48
  }

  function ColourIndex(c: Colour): (k: nat)
    ensures k < 4 && Colours[k] == c
  {
    match c
    case Blue => 0
    case Green => 1
    case Red => 2
    case Yellow => 3
  }

  /**
   * Colour number k has kennel cells 64+8k .. 67+8k, in increasing order, and start
   * cell 16k; the start cell lies on the ring and every kennel cell lies off it.
   */
  lemma BoardLayout(c: Colour)
    ensures forall j :: 0 <= j < 4 ==> Kennel(c)[j] == 64 + 8 * ColourIndex(c) + j
    ensures Start(c) == 16 * ColourIndex(c) && Start(c) < RingSize
    ensures forall p :: p in Kennel(c) ==> RingSize <= p <= 91
  {
  }

  /** No cell is a kennel cell of two colours. */
  lemma KennelsDisjoint(c: Colour, d: Colour)
    requires c != d
    ensures forall p :: p in Kennel(c) ==> p !in Kennel(d)
  {
  }
}
