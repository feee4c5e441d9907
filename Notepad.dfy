/**
 * The Notepad app: the edited text, its file name and the modified flag,
 * the Edit menu's copy, cut and paste as splices of the text at the
 * textarea's selection, the File menu's New and Save, and the status bar.
 *
 * The system clipboard and the `confirm()` dialog are inputs of the
 * operations that use them; the single localStorage entry the app writes is
 * a field of the editor, and JSON encoding is taken to give back what it
 * was given.
 *
 * The edited text is a sequence of UTF-16 code units, the unit in which
 * JavaScript's `length`, `substring` and the textarea's selection offsets
 * count: a character outside the Basic Multilingual Plane is two units, and
 * a selection may end between them.
 */
module Notepad {
  import opened Wrappers
  import opened Decimal

  /** One UTF-16 code unit. */
  newtype CodeUnit = x: int | 0 <= x < 0x1_0000

  /** A JavaScript string, as the code units it is made of. */
  type Text = seq<CodeUnit>

  const UntitledName := "Untitled"

  /** The entry saved under the storage key: `{ content, fileName }`. */
  datatype Saved = Saved(content: Text, fileName: string)

  /** A position clamped into `[0, n]`, as `String.prototype.substring` treats its arguments. */
  function Clamp(i: int, n: nat): (k: nat)
    ensures k <= n
    ensures 0 <= i <= n ==> k == i
  {
    if i < 0 then 0 else if i > n then n else i
  }

  /** `s.substring(a, b)`: both ends clamped, and swapped when given in the wrong order. */
  function Substring(s: Text, a: int, b: int): (r: Text)
    ensures 0 <= a <= b <= |s| ==> r == s[a..b]
  {
    var x, y := Clamp(a, |s|), Clamp(b, |s|);
    if x <= y then s[x..y] else s[y..x]
  }

  /** `s.substring(a)`: from the clamped position to the end. */
  function SubstringFrom(s: Text, a: int): (r: Text)
    ensures 0 <= a <= |s| ==> r == s[a..]
  {
    s[Clamp(a, |s|)..]
  }

  /** `handlePaste`'s new content: the selection replaced by the pasted text. */
  function Splice(content: Text, start: int, end: int, text: Text): Text {
    Substring(content, 0, start) + text + SubstringFrom(content, end)
  }

  /**
   * For a selection inside the text, pasting keeps what precedes and follows
   * the selection and puts the pasted text in its place; the length changes
   * by the pasted length minus the selected length.
   */
  lemma SpliceSelection(content: Text, start: int, end: int, text: Text)
    requires 0 <= start <= end <= |content|
    ensures var r := Splice(content, start, end, text);
      && |r| == |content| - (end - start) + |text|
      && r[..start] == content[..start]
      && r[start..start + |text|] == text
      && r[start + |text|..] == content[end..]
  {
    var r := Splice(content, start, end, text);
    assert r == content[..start] + text + content[end..];
    assert r[..start] == content[..start];
    assert r[start..start + |text|] == text;
    assert r[start + |text|..] == content[end..];
  }

  /** `handleCut`'s new content: the selection removed, when it is not empty. */
  function CutSelection(content: Text, start: int, end: int): Text {
    if start != end then Substring(content, 0, start) + SubstringFrom(content, end) else content
  }

  /** Cutting and pasting the cut text back at the same place restores the text. */
  lemma CutThenPaste(content: Text, start: int, end: int)
    requires 0 <= start <= end <= |content|
    ensures Splice(CutSelection(content, start, end), start, start, Substring(content, start, end)) == content
    ensures |CutSelection(content, start, end)| == |content| - (end - start)
  {
    var cut := CutSelection(content, start, end);
    assert cut == content[..start] + content[end..];
    assert cut[..start] == content[..start] && cut[start..] == content[end..];
    assert content == content[..start] + content[start..end] + content[end..];
  }

  /** The file name part of the status bar: the name, followed by " *" while there are unsaved changes. */
  function StatusName(fileName: string, isModified: bool): string {
    fileName + (if isModified then " *" else "")
  }

  /** The count part of the status bar: the number of code units, as `content.length` counts them. */
  function StatusCount(content: Text): string {
    ToDecimal(|content|) + " chars"
  }

  /** The name part tells exactly whether there are unsaved changes, and the count reads back as the length. */
  lemma StatusBar(fileName: string, isModified: bool, content: Text)
    ensures StatusName(fileName, isModified) == fileName + " *" <==> isModified
    ensures StatusName(fileName, isModified) == fileName <==> !isModified
    ensures var digits := StatusCount(content)[..|StatusCount(content)| - 6];
      (forall i :: 0 <= i < |digits| ==> IsDigit(digits[i])) && ParseDecimal(digits) == |content|
  {
    if !isModified {
      assert |StatusName(fileName, isModified)| != |fileName + " *"|;
    }
    var count := StatusCount(content);
    assert count[..|count| - 6] == ToDecimal(|content|);
    DecimalRoundTrip(|content|);
  }

  class Editor {
    var content: Text
    var fileName: string
    var isModified: bool
    /** The localStorage entry the app reads on mount and writes on save. */
    var stored: Option<Saved>

    constructor(stored: Option<Saved>)
      ensures content == [] && fileName == UntitledName && !isModified && this.stored == stored
    {
      content := [];
      fileName := UntitledName;
      isModified := false;
      this.stored := stored;
    }

    /** The mount effect: a saved entry is loaded, an empty name falling back to "Untitled". */
    method Load()
      modifies this
      ensures stored == old(stored) && isModified == old(isModified)
      ensures old(stored).None? ==> content == old(content) && fileName == old(fileName)
      ensures old(stored).Some? ==>
        content == old(stored).value.content
        && fileName == (if old(stored).value.fileName == "" then UntitledName else old(stored).value.fileName)
    {
      if stored.Some? {
        content := stored.value.content;
        fileName := if stored.value.fileName == "" then UntitledName else stored.value.fileName;
      }
    }

    /** `handleChange`: the textarea's new value, marked modified. */
    method HandleChange(value: Text)
      modifies this
      ensures content == value && isModified
      ensures fileName == old(fileName) && stored == old(stored)
    {
      content := value;
      isModified := true;
    }

    /** `handleNew`: a modified document is only dropped when the user confirms. */
    method HandleNew(confirmed: bool)
      modifies this
      ensures old(isModified) && !confirmed ==>
        content == old(content) && fileName == old(fileName) && isModified
      ensures !old(isModified) || confirmed ==>
        content == [] && fileName == UntitledName && !isModified
      ensures stored == old(stored)
    {
      if isModified && !confirmed {
        return;
      }
      content := [];
      fileName := UntitledName;
      isModified := false;
    }

    /** `handleSave`: the text and name are stored and the document is no longer modified. */
    method HandleSave()
      modifies this
      ensures stored == Some(Saved(content, fileName)) && !isModified
      ensures content == old(content) && fileName == old(fileName)
    {
      stored := Some(Saved(content, fileName));
      isModified := false;
    }

    /** `handleCopy`: the selected text goes to the clipboard when it is not empty. */
    method HandleCopy(start: int, end: int) returns (copied: Option<Text>)
      ensures copied.Some? <==> Substring(content, start, end) != []
      ensures copied.Some? ==> copied.value == Substring(content, start, end)
    {
      var selected := Substring(content, start, end);
      copied := if selected != [] then Some(selected) else None;
    }

    /**
     * `handlePaste` with the clipboard's text, or None when reading the
     * clipboard is refused: the selection is replaced and the document marked modified.
     */
    method HandlePaste(clipboard: Option<Text>, start: int, end: int)
      modifies this
      ensures clipboard.None? ==> content == old(content) && isModified == old(isModified)
      ensures clipboard.Some? ==> content == Splice(old(content), start, end, clipboard.value) && isModified
      ensures fileName == old(fileName) && stored == old(stored)
    {
      if clipboard.Some? {
        content := Splice(content, start, end, clipboard.value);
        isModified := true;
      }
    }

    /** `handleCut`: the selection is copied, then removed unless it is empty. */
    method HandleCut(start: int, end: int) returns (copied: Option<Text>)
      modifies this
      ensures copied.Some? <==> Substring(old(content), start, end) != []
      ensures copied.Some? ==> copied.value == Substring(old(content), start, end)
      ensures start == end ==> content == old(content) && isModified == old(isModified)
      ensures start != end ==> content == CutSelection(old(content), start, end) && isModified
      ensures fileName == old(fileName) && stored == old(stored)
    {
      copied := HandleCopy(start, end);
      if start != end {
        content := CutSelection(content, start, end);
        isModified := true;
      }
    }
  }

  /** Saving and loading again gives back the text and a non-empty name, with nothing left modified. */
  method SaveThenLoad(e: Editor)
    requires e.fileName != ""
    modifies e
    ensures e.content == old(e.content) && e.fileName == old(e.fileName) && !e.isModified
  {
    e.HandleSave();
    e.Load();
  }
}
