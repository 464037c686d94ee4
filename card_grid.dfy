// The grid of animation cards in the browse view
// (`AnimationCardGrid`, `src/gui/widgets/animation_card.py`): the list of
// cards, and the grid cell each card gets when the layout is refreshed.
//
// A card is known by an identifier; the Qt widgets and the layout object
// are represented by the cells the refresh assigns and the row it
// stretches.

module CardGrid {
  import opened Text

  /** A card's width plus the spacing between cards, in pixels. */
  const CardPitch := 220 + 16

  /** `max(1, widget_width // card_width)`; the divisor is positive, so Dafny's division is Python's floor division. */
  function Columns(width: int): (c: int)
    ensures c >= 1
    ensures width >= CardPitch ==> c * CardPitch <= width < (c + 1) * CardPitch
    ensures width < 2 * CardPitch ==> c == 1
  {
    if width / CardPitch > 1 then width / CardPitch else 1
  }

  /** The cell of the `i`-th card: `(i // columns, i % columns)`. */
  function Cell(i: nat, columns: int): (cell: (nat, nat))
    requires columns >= 1
  {
    (i / columns, i % columns)
  }

  /** The index a cell stands for in row-major order. */
  function CellIndex(cell: (nat, nat), columns: int): nat
    requires columns >= 1
  {
    cell.0 * columns + cell.1
  }

  /** Cells fill the grid row by row: the column is in range and the cell gives back its index. */
  lemma CellSpec(i: nat, columns: int)
    requires columns >= 1
    ensures Cell(i, columns).1 < columns
    ensures CellIndex(Cell(i, columns), columns) == i
  {
  }

  /** Two cards never share a cell. */
  lemma CellsDistinct(i: nat, j: nat, columns: int)
    requires columns >= 1 && i != j
    ensures Cell(i, columns) != Cell(j, columns)
  {
    CellSpec(i, columns);
    CellSpec(j, columns);
  }

  /** The row given stretch after `n > 0` cards: `(n - 1) // columns + 1`. */
  function StretchRow(n: nat, columns: int): nat
    requires n > 0 && columns >= 1
  {
    (n - 1) / columns + 1
  }

  /** The stretch row is the row just below the last occupied one. */
  lemma StretchRowBelowCards(n: nat, columns: int)
    requires n > 0 && columns >= 1
    ensures forall i :: 0 <= i < n ==> Cell(i, columns).0 < StretchRow(n, columns)
    ensures Cell(n - 1, columns).0 == StretchRow(n, columns) - 1
  {
    forall i | 0 <= i < n
      ensures Cell(i, columns).0 < StretchRow(n, columns)
    {
      DivMonotone(i, n - 1, columns);
    }
  }

  lemma DivMonotone(a: nat, b: nat, d: int)
    requires a <= b && d >= 1
    ensures a / d <= b / d
  {
    var qa, qb := a / d, b / d;
    assert a == qa * d + a % d && b == qb * d + b % d;
    assert (qb + 1) * d == qb * d + d;
    if qa > qb {
      MulMonotone(qb + 1, qa, d);
      assert false;
    }
  }

  lemma MulMonotone(x: int, y: int, d: int)
    requires x <= y && d >= 0
    ensures x * d <= y * d
  {
    assert y * d - x * d == (y - x) * d;
  }

  /** The position of the first `x` in `s`. */
  function IndexOf(s: seq<int>, x: int): (i: nat)
    requires x in s
    ensures i < |s| && s[i] == x && x !in s[..i]
  {
    if s[0] == x then 0 else 1 + IndexOf(s[1..], x)
  }

  /** `list.remove(x)`: the first `x` taken out. */
  function RemoveFirst(s: seq<int>, x: int): seq<int>
    requires x in s
  {
    var i := IndexOf(s, x);
    s[..i] + s[i + 1..]
  }

  /** Removing takes out one `x` and keeps the order of the rest. */
  lemma RemoveFirstSpec(s: seq<int>, x: int)
    requires x in s
    ensures |RemoveFirst(s, x)| == |s| - 1
    ensures multiset(RemoveFirst(s, x)) == multiset(s) - multiset{x}
    ensures var i := IndexOf(s, x);
            RemoveFirst(s, x)[..i] == s[..i] && RemoveFirst(s, x)[i..] == s[i + 1..]
  {
    var i := IndexOf(s, x);
    var r := RemoveFirst(s, x);
    assert s == s[..i] + ([x] + s[i + 1..]);
    calc {
      multiset(s);
      multiset(s[..i]) + multiset([x] + s[i + 1..]);
      multiset(s[..i]) + multiset{x} + multiset(s[i + 1..]);
      multiset(r) + multiset{x};
    }
    assert r[..i] == s[..i];
    assert r[i..] == s[i + 1..];
  }

  class CardGrid {
    /** The cards, in the order they were added. */
    var cards: seq<int>
    /** The widget's width in pixels. */
    var width: int
    /** The cell of each card, as the last refresh placed them. */
    var cells: seq<(nat, nat)>
    /** The row the last refresh stretched, if any. */
    var stretchRow: Option<nat>

    /** The cells are those of the current cards at the current width. */
    ghost predicate LaidOut()
      reads this
    {
      |cells| == |cards| && forall i :: 0 <= i < |cards| ==> cells[i] == Cell(i, Columns(width))
    }

    constructor (width: int)
      ensures this.width == width && cards == [] && cells == [] && stretchRow == None
      ensures LaidOut()
    {
      this.width := width;
      cards := [];
      cells := [];
      stretchRow := None;
    }

    /** `refresh_layout`: every card to its cell, then the row below the last one stretched. */
    method RefreshLayout()
      modifies this
      ensures cards == old(cards) && width == old(width)
      ensures LaidOut()
      ensures stretchRow == if |cards| > 0 then Some(StretchRow(|cards|, Columns(width))) else old(stretchRow)
    {
      var columns := Columns(width);
      var placed: seq<(nat, nat)> := [];
      var i := 0;
      while i < |cards|
        invariant 0 <= i <= |cards|
        invariant |placed| == i
        invariant forall j :: 0 <= j < i ==> placed[j] == Cell(j, columns)
      {
        placed := placed + [(i / columns, i % columns)];
        i := i + 1;
      }
      cells := placed;
      if |cards| > 0 {
        stretchRow := Some((|cards| - 1) / columns + 1);
      }
    }

    /** `add_card`: the card goes to the end, then the layout is refreshed. */
    method AddCard(card: int)
      modifies this
      ensures cards == old(cards) + [card] && width == old(width)
      ensures LaidOut() && stretchRow == Some(StretchRow(|cards|, Columns(width)))
    {
      cards := cards + [card];
      RefreshLayout();
    }

    /** `remove_card`: an absent card changes nothing; otherwise its first occurrence goes and the layout is refreshed. */
    method RemoveCard(card: int)
      modifies this
      ensures card !in old(cards) ==> cards == old(cards) && cells == old(cells) && stretchRow == old(stretchRow)
      ensures card in old(cards) ==> cards == RemoveFirst(old(cards), card) && LaidOut()
      ensures card in old(cards) ==>
        stretchRow == if |cards| > 0 then Some(StretchRow(|cards|, Columns(width))) else old(stretchRow)
      ensures width == old(width)
    {
      if card in cards {
        cards := RemoveFirst(cards, card);
        RefreshLayout();
      }
    }

    /** `clear_cards`: every card leaves the grid; the stretched row is left as it was. */
    method ClearCards()
      modifies this
      ensures cards == [] && cells == [] && width == old(width) && stretchRow == old(stretchRow)
      ensures LaidOut()
    {
      cards := [];
      cells := [];
    }

    /** `resizeEvent`: the new width, then the layout is refreshed. */
    method Resize(newWidth: int)
      modifies this
      ensures width == newWidth && cards == old(cards) && LaidOut()
      ensures stretchRow == if |cards| > 0 then Some(StretchRow(|cards|, Columns(width))) else old(stretchRow)
    {
      width := newWidth;
      RefreshLayout();
    }
  }

  /** After a refresh no two cards share a cell and every column is in range. */
  lemma LaidOutCellsDistinct(cards: seq<int>, cells: seq<(nat, nat)>, width: int)
    requires |cells| == |cards| && forall i :: 0 <= i < |cards| ==> cells[i] == Cell(i, Columns(width))
    ensures forall i, j :: 0 <= i < j < |cells| ==> cells[i] != cells[j]
    ensures forall i :: 0 <= i < |cells| ==> cells[i].1 < Columns(width)
  {
    forall i, j | 0 <= i < j < |cells|
      ensures cells[i] != cells[j]
    {
      CellsDistinct(i, j, Columns(width));
    }
  }
}
