/** The clipboard tool's history (ui/tools/clipboard_tool.py): every time the
    system clipboard changes while the dialog is shown, its text is remembered,
    at most ten texts, oldest first, none empty and none twice. */
module ClipboardTool {
  import opened StringOps

  const MaxHistory := 10

  predicate NoDuplicates(h: seq<string>) {
    forall i, j :: 0 <= i < j < |h| ==> h[i] != h[j]
  }

  /** What `clipboard_changed` keeps true of `history`. */
  predicate HistoryInvariant(h: seq<string>) {
    |h| <= MaxHistory && "" !in h && NoDuplicates(h)
  }

  /** The history after the clipboard changed to `text`: a new, non-empty text
      is appended, and when that makes eleven entries the first one is dropped. */
  function Recorded(h: seq<string>, text: string): seq<string> {
    if text == "" || text in h then h
    else if |h + [text]| > MaxHistory then (h + [text])[1..]
    else h + [text]
  }

  /** The history stays bounded, free of empty texts and free of duplicates. */
  lemma RecordKeepsInvariant(h: seq<string>, text: string)
    requires HistoryInvariant(h)
    ensures HistoryInvariant(Recorded(h, text))
  {
    if text != "" && text !in h {
      var g := h + [text];
      assert NoDuplicates(g) by {
        forall i, j | 0 <= i < j < |g|
          ensures g[i] != g[j]
        {
          if j == |h| {
            assert g[i] == h[i];
          }
        }
      }
      if |g| > MaxHistory {
        assert forall i :: 0 <= i < |g| - 1 ==> g[1..][i] == g[i + 1];
      }
    }
  }

  /** The empty text and a text already remembered change nothing. */
  lemma RecordIgnores(h: seq<string>, text: string)
    requires text == "" || text in h
    ensures Recorded(h, text) == h
  {
  }

  /** A new text becomes the last entry; the entries before it are the old ones
      in their old order, all of them while there is room, all but the oldest
      when the history was full. */
  lemma RecordAppends(h: seq<string>, text: string)
    requires HistoryInvariant(h) && text != "" && text !in h
    ensures var r := Recorded(h, text);
            && |r| > 0 && r[|r| - 1] == text
            && (|h| < MaxHistory ==> r[..|r| - 1] == h)
            && (|h| == MaxHistory ==> r[..|r| - 1] == h[1..] && h[0] !in r)
  {
    var r := Recorded(h, text);
    if |h| == MaxHistory {
      assert r == h[1..] + [text];
      assert h[0] !in h[1..] by {
        forall i | 0 <= i < |h[1..]|
          ensures h[1..][i] != h[0]
        {
          assert h[1..][i] == h[i + 1];
        }
      }
    }
  }

  /** The dialog: its history, the text area, and whether it is shown. */
  class ClipboardTool {
    var history: seq<string>
    var textArea: string
    var visible: bool

    predicate Valid()
      reads this
    {
      HistoryInvariant(history)
    }

    constructor ()
      ensures Valid() && history == [] && textArea == "" && !visible
    {
      history := [];
      textArea := "";
      visible := false;
    }

    /** The dialog is shown or hidden. */
    method SetVisible(shown: bool)
      modifies this
      ensures visible == shown && history == old(history) && textArea == old(textArea)
    {
      visible := shown;
    }

    /** `clipboard_changed`, with `text` the clipboard's new text: ignored while
        hidden; otherwise a new non-empty text is recorded and shown. */
    method ClipboardChanged(text: string)
      requires Valid()
      modifies this
      ensures Valid() && visible == old(visible)
      ensures !old(visible) ==> history == old(history) && textArea == old(textArea)
      ensures old(visible) ==> history == Recorded(old(history), text)
      ensures old(visible) ==>
                textArea == (if text != "" && text !in old(history) then text else old(textArea))
    {
      if !visible {
        return;
      }
      if text != "" && text !in history {
        history := history + [text];
        if |history| > MaxHistory {
          history := history[1..];
        }
        textArea := text;
      }
      RecordKeepsInvariant(old(history), text);
    }

    /** `get_clipboard`: the text area shows the clipboard's text. */
    method GetClipboard(text: string)
      modifies this
      ensures textArea == text && history == old(history) && visible == old(visible)
    {
      textArea := text;
    }

    /** `set_clipboard`: the text to put on the clipboard, none when the text
        area is empty. */
    method SetClipboard() returns (copied: Option<string>)
      ensures textArea == "" ==> copied == None
      ensures textArea != "" ==> copied == Some(textArea)
    {
      if textArea != "" {
        copied := Some(textArea);
      } else {
        copied := None;
      }
    }

    /** `clear_content`: empties the text area and keeps the history. */
    method ClearContent()
      modifies this
      ensures textArea == "" && history == old(history) && visible == old(visible)
    {
      textArea := "";
    }
  }
}
