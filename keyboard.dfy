/**
  Inline keyboards (client.py:22-31).

  `make_an_inline_keyboard(rows)` creates an empty `InlineKeyboardMarkup`
  and calls its `add` once per input row, passing that row's
  `(text, callback_data)` pairs as buttons. The library's `add` (aiogram's
  `InlineKeyboardMarkup.add`) appends the buttons it is given as keyboard
  rows of at most `row_width` buttons, `row_width` being 3 by default, and
  appends no row at all when it is given no button.
*/
module Keyboard {

  datatype Button = Button(text: string, callbackData: string)

  /** The rows of buttons of an inline keyboard, top to bottom. */
  type Markup = seq<seq<Button>>

  /** `InlineKeyboardMarkup()`'s default `row_width`. */
  const RowWidth: nat := 3

  /** The elements of the rows, row by row. */
  function Flatten<T>(rows: seq<seq<T>>): seq<T> {
    if rows == [] then [] else rows[0] + Flatten(rows[1..])
  }

  /**
    What `add(*buttons)` appends: consecutive chunks of `width` buttons,
    the last one possibly shorter, no empty chunk.
  */
  function Chunks(buttons: seq<Button>, width: nat): (rows: seq<seq<Button>>)
    requires width > 0
    ensures Flatten(rows) == buttons
    ensures forall i :: 0 <= i < |rows| ==> 0 < |rows[i]| <= width
    ensures forall i :: 0 <= i < |rows| - 1 ==> |rows[i]| == width
    ensures 0 < |buttons| <= width ==> rows == [buttons]
    ensures buttons == [] <==> rows == []
    decreases |buttons|
  {
    if |buttons| == 0 then []
    else if |buttons| <= width then [buttons]
    else
      var rest := Chunks(buttons[width..], width);
      assert ([buttons[..width]] + rest)[1..] == rest;
      [buttons[..width]] + rest
  }

  /** `InlineKeyboardButton(text, callback_data=data)` for each pair of a row. */
  function ToButtons(row: seq<(string, string)>): (bs: seq<Button>)
    ensures |bs| == |row|
    ensures forall j :: 0 <= j < |row| ==> bs[j] == Button(row[j].0, row[j].1)
  {
    if row == [] then [] else ToButtons(row[..|row| - 1]) + [Button(row[|row| - 1].0, row[|row| - 1].1)]
  }

  /** The keyboard that one `add` per input row builds from an empty one. */
  function Layout(rows: seq<seq<(string, string)>>): Markup {
    if rows == [] then []
    else Layout(rows[..|rows| - 1]) + Chunks(ToButtons(rows[|rows| - 1]), RowWidth)
  }

  /** `make_an_inline_keyboard`: one `add` per input row, in order. */
  method MakeInlineKeyboard(rows: seq<seq<(string, string)>>) returns (keyboard: Markup)
    ensures keyboard == Layout(rows)
  {
    keyboard := [];
    var i := 0;
    while i < |rows|
      invariant 0 <= i <= |rows|
      invariant keyboard == Layout(rows[..i])
    {
      assert rows[..i + 1][..i] == rows[..i];
      keyboard := keyboard + Chunks(ToButtons(rows[i]), RowWidth);
      i := i + 1;
    }
    assert rows[..|rows|] == rows;
  }

  lemma {:induction false} FlattenAppend<T>(a: seq<seq<T>>, b: seq<seq<T>>)
    ensures Flatten(a + b) == Flatten(a) + Flatten(b)
  {
    if a == [] {
      assert a + b == b;
    } else {
      assert (a + b)[1..] == a[1..] + b;
      FlattenAppend(a[1..], b);
    }
  }

  /**
    Whatever the row lengths, the keyboard holds exactly the given buttons,
    each with its pair's text and callback data, in the given order.
  */
  lemma {:induction false} LayoutKeepsButtons(rows: seq<seq<(string, string)>>)
    ensures Flatten(Layout(rows)) == ToButtons(Flatten(rows))
  {
    if rows != [] {
      var init, last := rows[..|rows| - 1], rows[|rows| - 1];
      var tail := Chunks(ToButtons(last), RowWidth);
      calc {
        Flatten(Layout(rows));
        Flatten(Layout(init) + tail);
        { FlattenAppend(Layout(init), tail); }
        Flatten(Layout(init)) + Flatten(tail);
        { LayoutKeepsButtons(init); }
        ToButtons(Flatten(init)) + ToButtons(last);
        { ToButtonsAppend(Flatten(init), last); }
        ToButtons(Flatten(init) + last);
        { assert rows == init + [last]; FlattenSnoc(init, last); }
        ToButtons(Flatten(rows));
      }
    }
  }

  lemma FlattenSnoc<T>(init: seq<seq<T>>, last: seq<T>)
    ensures Flatten(init + [last]) == Flatten(init) + last
  {
    FlattenAppend(init, [last]);
    assert [last][1..] == [];
  }

  lemma ToButtonsAppend(a: seq<(string, string)>, b: seq<(string, string)>)
    ensures ToButtons(a + b) == ToButtons(a) + ToButtons(b)
  {
    var l, r := ToButtons(a + b), ToButtons(a) + ToButtons(b);
    assert |l| == |r|;
    forall j | 0 <= j < |l| ensures l[j] == r[j] {
      if j < |a| { assert (a + b)[j] == a[j]; } else { assert (a + b)[j] == b[j - |a|]; }
    }
  }

  ghost predicate FitInOneRow(rows: seq<seq<(string, string)>>) {
    forall i :: 0 <= i < |rows| ==> 0 < |rows[i]| <= RowWidth
  }

  /**
    When every input row has one to three pairs, the keyboard has one row per
    input row, and button j of row i carries text and data of pair j of row i.
  */
  lemma {:induction false} LayoutRowPerRow(rows: seq<seq<(string, string)>>)
    requires FitInOneRow(rows)
    ensures |Layout(rows)| == |rows|
    ensures forall i :: 0 <= i < |rows| ==> Layout(rows)[i] == ToButtons(rows[i])
  {
    if rows != [] {
      var init := rows[..|rows| - 1];
      assert FitInOneRow(init) by {
        forall i | 0 <= i < |init| ensures 0 < |init[i]| <= RowWidth { assert init[i] == rows[i]; }
      }
      LayoutRowPerRow(init);
      var last := ToButtons(rows[|rows| - 1]);
      assert Chunks(last, RowWidth) == [last];
      assert Layout(rows) == Layout(init) + [last];
      forall i | 0 <= i < |rows| ensures Layout(rows)[i] == ToButtons(rows[i]) {
        if i < |init| { assert rows[i] == init[i]; }
      }
    }
  }

  /** An empty input row adds no keyboard row. */
  lemma EmptyRowAddsNothing(rows: seq<seq<(string, string)>>)
    ensures Layout(rows + [[]]) == Layout(rows)
  {
    assert (rows + [[]])[..|rows|] == rows;
  }

  /** An input row with more than three pairs is wrapped onto several keyboard rows. */
  lemma LongRowWraps(row: seq<(string, string)>)
    requires |row| > RowWidth
    ensures |Layout([row])| > 1
  {
    assert [row][..0] == [];
  }
}
