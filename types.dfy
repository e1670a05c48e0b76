/**
 * The records the chunker works on (src/models/datatypes.py) and the
 * outcomes of a Python call: a value, or the exception it raises, or no
 * answer at all because the call never returns.
 */
module Types {

  datatype Option<T> = None | Some(value: T)

  /** The ways a call of the chunker can fail to produce a value. */
  datatype Failure =
    | IndexError     // a list index out of range (also `x[0]` of an empty list)
    | KeyError       // a dictionary lookup of an absent key
    | TypeError      // arithmetic or comparison with None
    | UnboundLocal   // a local variable read before any assignment
    | ValueError     // an argument outside the range a library call accepts
    | Diverges       // the call never returns (unbounded recursion or loop)

  datatype Result<T> = Ok(value: T) | Err(error: Failure)

  /** One sentence of the source text; `index` comes from the class counter. */
  datatype Sentence = Sentence(index: nat, sentence: string, chunkIndex: Option<int>)

  /**
   * A sentence with its window text, embedding and distance to the next
   * sentence. `isAbovePercentile` defaults to None in the source and is only
   * ever read as a truth value, so its default is `false` here.
   */
  datatype CombinedSentence = CombinedSentence(
    index: nat,
    sentence: string := "",
    chunkIndex: Option<int> := None,
    combinedSentence: string := "",
    embeddings: seq<real> := [],
    cosineDistance: Option<real> := None,
    isAbovePercentile: bool := false)

  /** A run of sentences sharing one chunk index, with its flags. */
  datatype Chunk = Chunk(
    chunkIndex: int := 0,
    size: int := 0,
    cosineDistance: Option<real> := None,
    isTooBig: Option<bool> := None,
    isTooSmall: Option<bool> := None)

  /** Python truthiness of an optional flag. */
  predicate IsSet(flag: Option<bool>) { flag == Some(true) }

  /**
   * The class-level `_id_counter` of one record class. `Sentence` and
   * `CombinedSentences` each redeclare it, so each has its own counter; it is
   * never reset.
   */
  class IdCounter {
    var count: nat

    constructor ()
      ensures count == 0
    {
      count := 0;
    }

    /** `__post_init__`: increment the counter and take its new value. */
    method Next() returns (id: nat)
      modifies this
      ensures count == old(count) + 1
      ensures id == count
    {
      count := count + 1;
      id := count;
    }
  }

  /** `Sentence(text)`: a fresh sentence with no chunk index yet. */
  method NewSentence(ids: IdCounter, text: string) returns (s: Sentence)
    modifies ids
    ensures ids.count == old(ids.count) + 1
    ensures s == Sentence(ids.count, text, None)
  {
    var id := ids.Next();
    s := Sentence(id, text, None);
  }

  /** `CombinedSentences(...)`: only the combined-sentence counter moves. */
  method NewCombined(ids: IdCounter, sentence: string, combined: string, chunkIndex: Option<int>)
    returns (c: CombinedSentence)
    modifies ids
    ensures ids.count == old(ids.count) + 1
    ensures c == CombinedSentence(ids.count, sentence, chunkIndex, combined)
    ensures c.embeddings == [] && c.cosineDistance == None && !c.isAbovePercentile
  {
    var id := ids.Next();
    c := CombinedSentence(id, sentence, chunkIndex, combined);
  }

  /**
   * Creating sentences one after another: the indices continue the counter,
   * so they are unique and strictly increasing in creation order.
   */
  method NewSentences(ids: IdCounter, texts: seq<string>) returns (ss: seq<Sentence>)
    modifies ids
    ensures ids.count == old(ids.count) + |texts|
    ensures |ss| == |texts|
    ensures forall k :: 0 <= k < |ss| ==> ss[k] == Sentence(old(ids.count) + k + 1, texts[k], None)
    ensures forall k, l :: 0 <= k < l < |ss| ==> ss[k].index < ss[l].index
  {
    ss := [];
    var k := 0;
    while k < |texts|
      invariant 0 <= k <= |texts|
      invariant ids.count == old(ids.count) + k
      invariant |ss| == k
      invariant forall m :: 0 <= m < k ==> ss[m] == Sentence(old(ids.count) + m + 1, texts[m], None)
    {
      var s := NewSentence(ids, texts[k]);
      ss := ss + [s];
      k := k + 1;
    }
  }
}
