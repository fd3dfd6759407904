/**
  The editor behind the IME's InputConnection, reduced to what the voice pipeline touches:
  the text before the cursor. `getTextBeforeCursor(n, 0)` reads its last n characters,
  `deleteSurroundingText(1, 0)` removes the character before the cursor and
  `commitText(t, 1)` inserts t before the cursor.
*/
module Editor {
  import opened Base

  /** The window the voice pipeline reads: getTextBeforeCursor(1000, 0). */
  const WINDOW: nat := 1000

  /** The last n characters before the cursor, or all of them when there are fewer. */
  function TextBeforeCursor(buf: string, n: nat): (w: string)
    ensures |w| == Min(n, |buf|)
    ensures buf == buf[..|buf| - |w|] + w
  {
    buf[|buf| - Min(n, |buf|)..]
  }

  /** The text before the cursor after k single-character deletions. */
  function DeleteBefore(buf: string, k: nat): (r: string)
    ensures |r| == |buf| - Min(k, |buf|)
    ensures r == buf[..|r|]
    decreases k
  {
    if k == 0 || buf == [] then buf else DeleteBefore(buf[..|buf| - 1], k - 1)
  }

  /** The editor seen through an input connection. */
  class InputConnection {
    /** The text before the cursor. */
    var text: string

    constructor (initial: string)
      ensures text == initial
    {
      text := initial;
    }

    /** getTextBeforeCursor(n, 0). */
    function GetTextBeforeCursor(n: nat): (w: string)
      reads this
      ensures w == TextBeforeCursor(text, n)
    {
      text[|text| - Min(n, |text|)..]
    }

    /** deleteSurroundingText(1, 0): removes the character before the cursor, if any. */
    method DeleteCharBeforeCursor()
      modifies this
      ensures text == DeleteBefore(old(text), 1)
    {
      if text != [] {
        text := text[..|text| - 1];
      }
    }

    /** commitText(t, 1): inserts t before the cursor. */
    method CommitText(t: string)
      modifies this
      ensures text == old(text) + t
    {
      text := text + t;
    }
  }

  /** Deleting k characters and then one more is deleting k + 1. */
  lemma DeleteOneMore(buf: string, k: nat)
    ensures DeleteBefore(DeleteBefore(buf, k), 1) == DeleteBefore(buf, k + 1)
  {
  }
}
