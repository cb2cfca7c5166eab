/**
 * The FIFO ring buffer that each ICF queue owns. Its implementation is not
 * part of this model; it is used only through rb_init, rb_push, rb_pop and
 * rb_deinit, modelled here as a class holding the cells in FIFO order.
 */
module Ring {
  import opened Wrappers

  /** A ring cell: the frame bytes it owns; its frame_full_size is their length. */
  datatype Cell = Cell(l2frame: seq<bv8>)

  class RingBuffer {
    /** The cells, head first. */
    var cells: seq<Cell>

    /** rb_init: an empty ring. */
    constructor Init()
      ensures cells == []
    {
      cells := [];
    }

    /** rb_push: the cell becomes the new tail. */
    method Push(c: Cell)
      modifies this
      ensures cells == old(cells) + [c]
    {
      cells := cells + [c];
    }

    /** rb_pop: the head cell, or None (NULL) when the ring is empty. */
    method Pop() returns (c: Option<Cell>)
      modifies this
      ensures old(cells) == [] ==> c == None && cells == []
      ensures old(cells) != [] ==> c == Some(old(cells)[0]) && cells == old(cells)[1..]
    {
      if cells == [] {
        c := None;
      } else {
        c := Some(cells[0]);
        cells := cells[1..];
      }
    }

    /** rb_deinit: every cell is released. */
    method Deinit()
      modifies this
      ensures cells == []
    {
      cells := [];
    }
  }
}
