/**
 * The text the view services build from fetched rows: for every row, one
 * `Label: field` line per column and then a separator line, appended to
 * `result` in fetch order (`result += ...` in a loop over the rows).
 */
module Report {
  import opened Wrappers

  const Separator: string := "----------------------\n"

  predicate EndsWith(s: string, suffix: string) {
    |suffix| <= |s| && s[|s| - |suffix|..] == suffix
  }

  /** One row's block: `labels[k] + fields[k] + "\n"` for each column, then the separator. */
  function Block(labels: seq<string>, fields: seq<string>): (b: string)
    ensures EndsWith(b, Separator)
  {
    if labels == [] || fields == [] then Separator
    else
      var tail := Block(labels[1..], fields[1..]);
      var b := labels[0] + fields[0] + "\n" + tail;
      assert b[|b| - |Separator|..] == tail[|tail| - |Separator|..];
      b
  }

  /** The text accumulated over `rows`, the block of each row appended in order. */
  function Rendered<T>(rows: seq<T>, block: T -> string): string {
    if rows == [] then "" else Rendered(rows[..|rows| - 1], block) + block(rows[|rows| - 1])
  }

  /** The rendering loop of the view services. */
  method RenderRows<T>(rows: seq<T>, block: T -> string) returns (text: string)
    ensures text == Rendered(rows, block)
  {
    text := "";
    for i := 0 to |rows|
      invariant text == Rendered(rows[..i], block)
    {
      assert rows[..i + 1][..i] == rows[..i];
      text := text + block(rows[i]);
    }
    assert rows[..|rows|] == rows;
  }

  lemma {:induction false} RenderedAppend<T>(a: seq<T>, b: seq<T>, block: T -> string)
    ensures Rendered(a + b, block) == Rendered(a, block) + Rendered(b, block)
    decreases |b|
  {
    if b == [] {
      assert a + b == a;
    } else {
      var c := a + b;
      assert c[..|c| - 1] == a + b[..|b| - 1];
      assert c[|c| - 1] == b[|b| - 1];
      RenderedAppend(a, b[..|b| - 1], block);
    }
  }

  /** Row `k`'s block stands between the blocks of the rows before it and those after it. */
  lemma RenderedAt<T>(rows: seq<T>, k: nat, block: T -> string)
    requires k < |rows|
    ensures Rendered(rows, block)
         == Rendered(rows[..k], block) + block(rows[k]) + Rendered(rows[k + 1..], block)
  {
    var pre := rows[..k + 1];
    assert rows == pre + rows[k + 1..];
    RenderedAppend(pre, rows[k + 1..], block);
    assert pre[..|pre| - 1] == rows[..k];
  }

  /**
   * When every block ends with the separator, text rendered from at least one
   * row ends with it too, so it differs from any notice that does not.
   */
  lemma RenderedEndsWithSeparator<T>(rows: seq<T>, block: T -> string)
    requires rows != []
    requires forall r :: r in rows ==> EndsWith(block(r), Separator)
    ensures EndsWith(Rendered(rows, block), Separator)
  {
    var last := block(rows[|rows| - 1]);
    var s := Rendered(rows, block);
    assert EndsWith(last, Separator);
    assert s[|s| - |Separator|..] == last[|last| - |Separator|..];
  }

  // Reading a rendered text back.

  /** Position of the first newline in `s`. */
  function FindNewline(s: string): (k: Option<nat>)
    ensures k.Some? ==> k.value < |s| && s[k.value] == '\n'
  {
    if s == [] then None
    else if s[0] == '\n' then Some(0)
    else match FindNewline(s[1..])
      case None => None
      case Some(k) => Some(k + 1)
  }

  /** Reads one block laid out for `labels`: the fields, and the text after the block. */
  function ParseBlock(labels: seq<string>, text: string): (p: Option<(seq<string>, string)>)
    ensures p.Some? ==> |p.value.0| == |labels| && |p.value.1| < |text|
  {
    if labels == [] then
      if |Separator| <= |text| && text[..|Separator|] == Separator then Some(([], text[|Separator|..]))
      else None
    else if |labels[0]| <= |text| && text[..|labels[0]|] == labels[0] then
      var after := text[|labels[0]|..];
      match FindNewline(after)
      case None => None
      case Some(k) =>
        match ParseBlock(labels[1..], after[k + 1..])
        case None => None
        case Some(p) => Some(([after[..k]] + p.0, p.1))
    else None
  }

  /** Reads a whole rendered text back into the fields of its rows. */
  function Decode(labels: seq<string>, text: string): Option<seq<seq<string>>>
    decreases |text|
  {
    if text == [] then Some([])
    else match ParseBlock(labels, text)
      case None => None
      case Some(p) =>
        match Decode(labels, p.1)
        case None => None
        case Some(rest) => Some([p.0] + rest)
  }

  /** The fields of each row, in order. */
  function Records<T>(rows: seq<T>, fields: T -> seq<string>): (rs: seq<seq<string>>)
    ensures |rs| == |rows|
    ensures forall i :: 0 <= i < |rows| ==> rs[i] == fields(rows[i])
  {
    if rows == [] then [] else [fields(rows[0])] + Records(rows[1..], fields)
  }

  /** A row whose fields can be laid out unambiguously: one field per label, none holding a newline. */
  predicate Readable(labels: seq<string>, fields: seq<string>) {
    |fields| == |labels| && forall j :: 0 <= j < |fields| ==> '\n' !in fields[j]
  }

  lemma {:induction false} FindNewlineAfter(x: string, y: string)
    requires '\n' !in x
    ensures FindNewline(x + "\n" + y) == Some(|x|)
  {
    if x != [] {
      assert (x + "\n" + y)[0] == x[0];
      assert (x + "\n" + y)[1..] == x[1..] + "\n" + y;
      FindNewlineAfter(x[1..], y);
    }
  }

  /** Reading one labelled line of a block. */
  lemma ParseLine(labels: seq<string>, field: string, more: string)
    requires labels != [] && '\n' !in field
    ensures ParseBlock(labels, labels[0] + field + "\n" + more)
         == match ParseBlock(labels[1..], more)
            case None => None
            case Some(p) => Some(([field] + p.0, p.1))
  {
    var text := labels[0] + field + "\n" + more;
    var after := field + "\n" + more;
    assert text == labels[0] + after;
    assert text[..|labels[0]|] == labels[0];
    assert text[|labels[0]|..] == after;
    FindNewlineAfter(field, more);
    assert after[..|field|] == field;
    assert after[|field| + 1..] == more;
  }

  lemma {:induction false} ParseBlockOfBlock(labels: seq<string>, fields: seq<string>, rest: string)
    requires Readable(labels, fields)
    ensures ParseBlock(labels, Block(labels, fields) + rest) == Some((fields, rest))
  {
    if labels == [] {
      var text := Separator + rest;
      assert text[..|Separator|] == Separator;
      assert text[|Separator|..] == rest;
    } else {
      var tail := Block(labels[1..], fields[1..]);
      assert Block(labels, fields) + rest == labels[0] + fields[0] + "\n" + (tail + rest);
      assert Readable(labels[1..], fields[1..]) by {
        forall j | 0 <= j < |fields[1..]| ensures '\n' !in fields[1..][j] {
          assert fields[1..][j] == fields[j + 1];
        }
      }
      ParseBlockOfBlock(labels[1..], fields[1..], rest);
      ParseLine(labels, fields[0], tail + rest);
      assert [fields[0]] + fields[1..] == fields;
    }
  }

  /**
   * Read-back: text rendered from rows whose fields hold no newline decodes to
   * exactly those rows' fields, in order; the text loses and reorders nothing.
   */
  lemma {:induction false} DecodeRendered<T>(labels: seq<string>, rows: seq<T>,
                                             block: T -> string, fields: T -> seq<string>)
    requires forall r :: r in rows ==> block(r) == Block(labels, fields(r)) && Readable(labels, fields(r))
    ensures Decode(labels, Rendered(rows, block)) == Some(Records(rows, fields))
  {
    if rows != [] {
      assert rows == [rows[0]] + rows[1..];
      RenderedAppend([rows[0]], rows[1..], block);
      assert [rows[0]][..0] == [];
      var rest := Rendered(rows[1..], block);
      assert Rendered(rows, block) == Block(labels, fields(rows[0])) + rest;
      ParseBlockOfBlock(labels, fields(rows[0]), rest);
      DecodeRendered(labels, rows[1..], block, fields);
    }
  }
}
