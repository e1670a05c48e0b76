/**
 * `PreprocessPDF.preprocess` (upload_pdfs/handle_data/preprocess_pdf.py):
 * the document items, in reading order, become one markdown string. Each item
 * contributes a piece determined by its label; a picture or a table that is
 * directly followed by a caption is held back so that the caption comes
 * first.
 *
 * The item list is a parameter (loading the PDF is not modelled) and so are
 * the picture and table handlers, whose results are taken as given strings.
 */
module Markdown {
  import opened Seqs

  /**
   * The labels of document items the conversion tells apart (the values
   * `"picture"`, `"table"`, `"caption"`, `"section_header"`, `"list_item"`
   * and `"text"` of the item label); every other label is `Other`.
   */
  datatype Label = Picture | Table | Caption | SectionHeader | ListItem | Text | Other

  /** One document item: its label (`kind`) and its text. */
  datatype DocItem = DocItem(kind: Label, text: string)

  /** `_check_if_next_element_for_current_is_caption`. */
  predicate NextIsCaption(items: seq<DocItem>, i: int)
    requires 0 <= i < |items|
  {
    var next := i + 1;
    if next < |items| then items[next].kind == Caption else false
  }

  /** `_check_if_neccessary_to_add_new_lines`. */
  predicate NeedsNewLines(items: seq<DocItem>, i: int)
    requires 0 <= i < |items|
  {
    var next := i + 1;
    next < |items| && items[i].kind == Text && items[next].kind in {ListItem, Picture, Table}
  }

  predicate IsFigure(kind: Label)
  {
    kind == Picture || kind == Table
  }

  /** Item `i` is a picture or table that waits for the caption after it. */
  predicate Held(items: seq<DocItem>, i: int)
    requires 0 <= i < |items|
  {
    IsFigure(items[i].kind) && NextIsCaption(items, i)
  }

  /** The piece item `i` contributes to the markdown. */
  function Emission(items: seq<DocItem>, i: int, picture: DocItem -> string, table: DocItem -> string): string
    requires 0 <= i < |items|
  {
    var it := items[i];
    var piece :=
      if it.kind == Picture then "`" + picture(it) + "`\n\n"
      else if it.kind == Table then "`" + table(it) + "`\n\n"
      else if it.kind == Caption then "\n***" + it.text + "***\n\n"
      else if it.kind == SectionHeader then "\n\n## " + it.text + "\n"
      else if it.kind == ListItem then "- " + it.text + "\n"
      else it.text;
    if NeedsNewLines(items, i) then piece + "\n\n" else piece
  }

  /**
   * The order in which the items of `items[from..]` reach the markdown: each
   * in turn, except that a held figure and its caption trade places.
   */
  function Order(items: seq<DocItem>, from: nat): (r: seq<int>)
    ensures forall k :: 0 <= k < |r| ==> from <= r[k] < |items|
    decreases |items| - from
  {
    if from >= |items| then []
    else if Held(items, from) then [from + 1, from] + Order(items, from + 2)
    else [from] + Order(items, from + 1)
  }

  /** The pieces of the items listed in `order`, concatenated. */
  function Emitted(items: seq<DocItem>, order: seq<int>, picture: DocItem -> string, table: DocItem -> string): string
    requires forall k :: 0 <= k < |order| ==> 0 <= order[k] < |items|
  {
    if |order| == 0 then ""
    else Emission(items, order[0], picture, table) + Emitted(items, order[1..], picture, table)
  }

  /**
   * Where `preprocess` stands before item `i`: the flag is set exactly when
   * the item before is a held figure, whose piece is then pending, and the
   * markdown so far, followed by what is still to come, is the whole result.
   */
  ghost predicate Progress(items: seq<DocItem>, i: int, held: bool, markdown: string, pending: string,
                           picture: DocItem -> string, table: DocItem -> string)
  {
    var whole := Emitted(items, Order(items, 0), picture, table);
    && 0 <= i <= |items|
    && held == (i > 0 && Held(items, i - 1))
    && (!held ==> pending == "" && markdown + Emitted(items, Order(items, i), picture, table) == whole)
    && (held ==> && i < |items| && pending == Emission(items, i - 1, picture, table)
                 && markdown + (Emission(items, i, picture, table) + pending)
                    + Emitted(items, Order(items, i + 1), picture, table) == whole)
  }

  /**
   * `preprocess`: one pass over the items with a pending piece and a flag
   * that holds the pending piece back while a caption is expected.
   */
  method Preprocess(items: seq<DocItem>, picture: DocItem -> string, table: DocItem -> string)
    returns (markdown: string)
    ensures markdown == Emitted(items, Order(items, 0), picture, table)
  {
    var captionCheck := false;
    markdown := "";
    var pending := "";
    for i := 0 to |items|
      invariant Progress(items, i, captionCheck, markdown, pending, picture, table)
    {
      ghost var held, before, waiting := captionCheck, markdown, pending;
      captionCheck, pending := EmitItem(items, i, captionCheck, pending, picture, table);
      EmitIsStep(items, i, held, before, waiting, captionCheck, pending, picture, table);
      if !captionCheck {
        markdown := markdown + pending;
        pending := "";
      }
      ProgressStep(items, i, held, before, waiting, captionCheck, picture, table);
    }
  }

  /**
   * What the loop body does to the flag and the pending piece: the flag
   * becomes whether item `i` is held, and its piece goes in front of what was
   * pending (a caption after a held figure) or replaces the empty pending piece.
   */
  lemma EmitIsStep(items: seq<DocItem>, i: int, held: bool, markdown: string, pending: string,
                   held': bool, pending': string, picture: DocItem -> string, table: DocItem -> string)
    requires 0 <= i < |items| && Progress(items, i, held, markdown, pending, picture, table)
    requires var kind := items[i].kind;
             held' == if IsFigure(kind) then NextIsCaption(items, i) else held && kind != Caption
    requires var kind := items[i].kind; var e := Emission(items, i, picture, table);
             pending' == if kind == Caption then e + pending
                         else if kind in {Picture, Table, SectionHeader, ListItem} then e
                         else pending + e
    ensures held' == Held(items, i) && pending' == Emission(items, i, picture, table) + pending
  {
    var e := Emission(items, i, picture, table);
    if held {
      assert items[i].kind == Caption;
    } else {
      assert pending == "";
      assert e + pending == e && pending + e == e;
    }
  }

  /** Handling item `i` keeps the progress. */
  lemma ProgressStep(items: seq<DocItem>, i: int, held: bool, markdown: string, pending: string, held': bool,
                     picture: DocItem -> string, table: DocItem -> string)
    requires 0 <= i < |items| && Progress(items, i, held, markdown, pending, picture, table)
    requires held' == Held(items, i)
    ensures var pending' := Emission(items, i, picture, table) + pending;
            if held' then Progress(items, i + 1, held', markdown, pending', picture, table)
            else Progress(items, i + 1, held', markdown + pending', "", picture, table)
  {
    var e := Emission(items, i, picture, table);
    if !held {
      OrderStep(items, i, picture, table);
      assert e + pending == e;
      if held' {
        AppendAssoc(markdown, Emission(items, i + 1, picture, table) + e, Emitted(items, Order(items, i + 2), picture, table));
        AppendAssoc(Emission(items, i + 1, picture, table), e, Emitted(items, Order(items, i + 2), picture, table));
      } else {
        AppendAssoc(markdown, e, Emitted(items, Order(items, i + 1), picture, table));
      }
    }
  }

  /**
   * The body of the loop for item `i`. A figure, a header or a list item
   * replaces what was pending by its own piece, a caption puts its piece in
   * front of it, and any other item appends its text to it; only a figure
   * sets the flag, to whether a caption follows, and a caption clears it.
   */
  method EmitItem(items: seq<DocItem>, i: int, captionCheck: bool, pending: string,
                  picture: DocItem -> string, table: DocItem -> string)
    returns (captionCheck': bool, pending': string)
    requires 0 <= i < |items|
    ensures var kind := items[i].kind;
            captionCheck' == if IsFigure(kind) then NextIsCaption(items, i) else captionCheck && kind != Caption
    ensures var kind := items[i].kind; var e := Emission(items, i, picture, table);
            pending' == if kind == Caption then e + pending
                        else if kind in {Picture, Table, SectionHeader, ListItem} then e
                        else pending + e
  {
    captionCheck' := captionCheck;
    pending' := pending;
    var element := items[i];
    var kind := element.kind;
    var addNewLine := NeedsNewLines(items, i);
    if kind == Picture {
      pending' := "`" + picture(element) + "`\n\n";
      captionCheck' := NextIsCaption(items, i);
    } else if kind == Table {
      pending' := "`" + table(element) + "`\n\n";
      captionCheck' := NextIsCaption(items, i);
    } else if kind == Caption {
      pending' := "\n***" + element.text + "***\n\n" + pending';
      captionCheck' := false;
    } else if kind == SectionHeader {
      pending' := "\n\n## " + element.text + "\n";
    } else if kind == ListItem {
      pending' := "- " + element.text + "\n";
    } else {
      pending' := pending' + element.text;
    }
    if addNewLine {
      pending' := pending' + "\n\n";
    }
  }

  /** One step of the order from a position where no piece is held back. */
  lemma OrderStep(items: seq<DocItem>, i: int, picture: DocItem -> string, table: DocItem -> string)
    requires 0 <= i < |items|
    ensures Held(items, i) ==>
              Emitted(items, Order(items, i), picture, table)
                == Emission(items, i + 1, picture, table) + Emission(items, i, picture, table)
                   + Emitted(items, Order(items, i + 2), picture, table)
    ensures !Held(items, i) ==>
              Emitted(items, Order(items, i), picture, table)
                == Emission(items, i, picture, table) + Emitted(items, Order(items, i + 1), picture, table)
  {
    if Held(items, i) {
      var rest := Order(items, i + 2);
      assert ([i + 1, i] + rest)[1..] == [i] + rest;
      assert ([i] + rest)[1..] == rest;
    } else {
      assert ([i] + Order(items, i + 1))[1..] == Order(items, i + 1);
    }
  }

  /** Nothing is lost or repeated: every item reaches the markdown exactly once. */
  lemma {:induction false} OrderIsPermutation(items: seq<DocItem>, from: nat)
    ensures multiset(Order(items, from)) == multiset(Range(from, |items|))
    decreases |items| - from
  {
    if from >= |items| {
      assert Range(from, |items|) == [];
    } else if Held(items, from) {
      OrderIsPermutation(items, from + 2);
      HeldPairCounted(items, from);
    } else {
      OrderIsPermutation(items, from + 1);
      ItemCounted(items, from);
    }
  }

  /** A held figure and its caption, emitted swapped, still count once each. */
  lemma HeldPairCounted(items: seq<DocItem>, from: nat)
    requires from < |items| && Held(items, from)
    requires multiset(Order(items, from + 2)) == multiset(Range(from + 2, |items|))
    ensures multiset(Order(items, from)) == multiset(Range(from, |items|))
  {
    var n := |items|;
    var rest, tail := Order(items, from + 2), Range(from + 2, n);
    assert Order(items, from) == [from + 1, from] + rest;
    RangeCons(from, n);
    RangeCons(from + 1, n);
    assert Range(from, n) == [from] + ([from + 1] + tail);
    SwappedCount(multiset([from + 1, from] + rest), multiset([from] + ([from + 1] + tail)), from, from + 1,
                 multiset(rest), multiset(tail));
  }

  /** Two bags built from the same elements, one pair swapped, are equal. */
  lemma SwappedCount(order: multiset<int>, range: multiset<int>, a: int, b: int, rest: multiset<int>, tail: multiset<int>)
    requires order == multiset{b, a} + rest && range == multiset{a} + (multiset{b} + tail) && rest == tail
    ensures order == range
  {
  }

  /** An item emitted in place counts once. */
  lemma ItemCounted(items: seq<DocItem>, from: nat)
    requires from < |items| && !Held(items, from)
    requires multiset(Order(items, from + 1)) == multiset(Range(from + 1, |items|))
    ensures multiset(Order(items, from)) == multiset(Range(from, |items|))
  {
    assert Range(from, |items|) == [from] + Range(from + 1, |items|);
  }

  /**
   * Items keep their places, except that a caption right after a picture or
   * table moves up one place and the figure moves down one: the caption is
   * emitted before its figure.
   */
  lemma {:induction false} OrderSwapsOnlyCaptions(items: seq<DocItem>, from: nat, k: int)
    requires 0 <= k < |Order(items, from)|
    ensures var p := Order(items, from)[k] - from;
            || p == k
            || (p == k + 1 && Held(items, from + k) && items[from + k + 1].kind == Caption)
            || (p == k - 1 && Held(items, from + p))
    decreases |items| - from
  {
    if Held(items, from) {
      if k >= 2 {
        OrderSwapsOnlyCaptions(items, from + 2, k - 2);
      }
    } else {
      if k >= 1 {
        OrderSwapsOnlyCaptions(items, from + 1, k - 1);
      }
    }
  }

  /** Without a picture or table followed by a caption, every item's piece comes in document order. */
  lemma {:induction false} InOrderWithoutHeldFigures(items: seq<DocItem>, from: nat)
    requires forall i :: from <= i < |items| ==> !Held(items, i)
    ensures Order(items, from) == Range(from, |items|)
    decreases |items| - from
  {
    if from < |items| {
      InOrderWithoutHeldFigures(items, from + 1);
      RangeCons(from, |items|);
    }
  }
}
