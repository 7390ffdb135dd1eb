/**
 * The state of one `FlowchartNode` of promptperfector/ui/flowchart_canvas.py once
 * the Qt objects are stripped away: its id, subject, text, position (opaque),
 * colour, and whether it was wired to the canvas (`canvas_ref` set and
 * connector-button filters installed). Every path that changes the subject or
 * the text redisplays, so the text item always shows `Display(subject, text)`
 * and is not stored separately.
 */
module CanvasNode {
  import opened JsonValue
  import opened Text

  /** The node colours, in the order `_node_colors` lists them. */
  const Palette: seq<string> := ["#ffc0cb", "#ff6666", "#ffff66"]

  /** `clip_text` keeps at most this many characters. */
  const MaxChars: nat := 30

  /** `obj` stands for the Python object's identity (what `is` compares). */
  datatype NodeItem = NodeItem(
    obj: nat,
    id: string,
    subject: string,
    text: string,
    pos: Json,
    color: string,
    wired: bool)

  /**
   * The display rule of `update_text_item`: the stripped subject when it is not
   * blank, the text otherwise.
   */
  function Display(subject: string, text: string): string
  {
    if |Strip(subject)| > 0 then Strip(subject) else text
  }

  /**
   * A blank subject shows the text; any other subject is shown stripped, so the
   * string shown then neither starts nor ends with whitespace.
   */
  lemma DisplayRule(subject: string, text: string)
    ensures AllSpace(subject) ==> Display(subject, text) == text
    ensures !AllSpace(subject) ==> Display(subject, text) == Strip(subject) && Display(subject, text) != []
    ensures !AllSpace(subject) ==>
      !IsSpace(Display(subject, text)[0]) && !IsSpace(Display(subject, text)[|Display(subject, text)| - 1])
  {
  }

  /** Displaying what is displayed changes nothing: the rule is idempotent in its text. */
  lemma DisplayOfDisplay(subject: string, text: string)
    ensures Display(subject, Display(subject, text)) == Display(subject, text)
  {
  }

  /**
   * The characters a text item never reads back: `setPlainText` turns a
   * carriage return and the two frame markers U+FDD0 and U+FDD1 into block
   * breaks, and `toPlainText` writes block breaks, line and paragraph
   * separators as line feeds and a no-break space as a space.
   */
  predicate PlainClean(s: string) {
    forall i :: 0 <= i < |s| ==> s[i] !in {'\r', '\U{00A0}', '\U{2028}', '\U{2029}', '\U{FDD0}', '\U{FDD1}'}
  }

  /** What a text item reads back for one character that is not part of a `"\r\n"`. */
  function PlainChar(c: char): char {
    if c == '\U{00A0}' then ' '
    else if c in {'\r', '\U{2028}', '\U{2029}', '\U{FDD0}', '\U{FDD1}'} then '\n'
    else c
  }

  /**
   * `toPlainText()` of a text item given `s` by `setPlainText`: a `"\r\n"` is one
   * block break, read back as one line feed; every other character is read back
   * by `PlainChar`.
   */
  function PlainText(s: string): string
    decreases |s|
  {
    if s == [] then []
    else if |s| >= 2 && s[0] == '\r' && s[1] == '\n' then "\n" + PlainText(s[2..])
    else [PlainChar(s[0])] + PlainText(s[1..])
  }

  /**
   * Reading back never lengthens the text, keeps its length when it holds no
   * carriage return, and leaves none of the characters `PlainClean` excludes.
   */
  lemma {:induction false} PlainTextNormal(s: string)
    ensures |PlainText(s)| <= |s|
    ensures '\r' !in s ==> |PlainText(s)| == |s|
    ensures PlainClean(PlainText(s))
    decreases |s|
  {
    if s == [] {
    } else if |s| >= 2 && s[0] == '\r' && s[1] == '\n' {
      PlainTextNormal(s[2..]);
      var r := PlainText(s[2..]);
      assert PlainText(s) == "\n" + r;
      assert forall i :: 0 < i <= |r| ==> ("\n" + r)[i] == r[i - 1];
    } else {
      PlainTextNormal(s[1..]);
      var r := PlainText(s[1..]);
      assert PlainText(s) == [PlainChar(s[0])] + r;
      assert forall i :: 0 < i <= |r| ==> ([PlainChar(s[0])] + r)[i] == r[i - 1];
      assert '\r' !in s ==> '\r' !in s[1..];
    }
  }

  /** A text holding none of those characters reads back exactly as it is. */
  lemma {:induction false} PlainTextOfClean(s: string)
    requires PlainClean(s)
    ensures PlainText(s) == s
    decreases |s|
  {
    if s != [] {
      assert PlainClean(s[1..]) by {
        assert forall i :: 0 <= i < |s[1..]| ==> s[1..][i] == s[i + 1];
      }
      PlainTextOfClean(s[1..]);
      assert s == [s[0]] + s[1..];
    }
  }

  /** Reading back what was read back changes nothing. */
  lemma PlainTextIdempotent(s: string)
    ensures PlainText(PlainText(s)) == PlainText(s)
  {
    PlainTextNormal(s);
    PlainTextOfClean(PlainText(s));
  }

  /**
   * A node built from the subject and the read-back text of another shows, read
   * back, the same string: the read-back text is stable under a second round.
   */
  lemma ReadBackStable(subject: string, text: string)
    ensures PlainText(Display(subject, PlainText(Display(subject, text)))) == PlainText(Display(subject, text))
  {
    PlainTextIdempotent(Display(subject, text));
  }

  /**
   * `FlowchartNode(text, node_id, pos, color, subject)` with a missing subject
   * passed as `''`.
   */
  function NewItem(obj: nat, id: string, subject: string, text: string, pos: Json, color: string, wired: bool): (n: NodeItem)
    ensures n.obj == obj && n.id == id && n.subject == subject && n.text == text
    ensures n.pos == pos && n.color == color && n.wired == wired
  {
    NodeItem(obj, id, subject, text, pos, color, wired)
  }

  /**
   * The effective `get_text` (the later definition): the text item's
   * `toPlainText()`, the display string as Qt reads it back.
   */
  function GetText(n: NodeItem): string
  {
    PlainText(Display(n.subject, n.text))
  }

  /** `set_subject(s)`: stores the subject and redisplays. */
  function SetSubject(n: NodeItem, subject: string): (r: NodeItem)
    ensures r.subject == subject && r.text == n.text
    ensures r.obj == n.obj && r.id == n.id && r.pos == n.pos && r.color == n.color && r.wired == n.wired
  {
    n.(subject := subject)
  }

  /**
   * The effective `set_text(text)` (the later definition) redisplays from the
   * stored text and never stores its argument: the node is left as it was.
   */
  function SetText(n: NodeItem, text: string): (r: NodeItem)
    ensures r == n
  {
    n
  }

  /**
   * Accepting the edit dialog (`set_subject` then `set_text`): the subject is taken,
   * the typed text is not, and the node shows the new subject, or its old text
   * when the new subject is blank.
   */
  lemma EditKeepsStoredText(n: NodeItem, subject: string, text: string)
    ensures SetText(SetSubject(n, subject), text).text == n.text
    ensures GetText(SetText(SetSubject(n, subject), text)) == PlainText(Display(subject, n.text))
    ensures AllSpace(subject) ==> GetText(SetText(SetSubject(n, subject), text)) == PlainText(n.text)
  {
    DisplayRule(subject, n.text);
  }

  /**
   * `clip_text`: at most 30 characters; longer text keeps its first 27 and ends in
   * `"..."`.
   */
  function ClipText(s: string): (r: string)
    ensures |r| <= MaxChars
    ensures |s| <= MaxChars ==> r == s
    ensures |s| > MaxChars ==> |r| == MaxChars && r[..MaxChars - 3] == s[..MaxChars - 3]
    ensures |s| > MaxChars ==> r[MaxChars - 3..] == "..."
  {
    if |s| <= MaxChars then s else s[..MaxChars - 3] + "..."
  }
}
