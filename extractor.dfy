/**
 * Ingredient extraction, the double loop of TranscribeThread.run: the
 * text is lower-cased and split on whitespace; every token is compared
 * with every vocabulary entry (entries are not lower-cased) and each
 * similar entry is appended to the result unless it is already there.
 */
module Extractor {
  import opened Sequences
  import opened Text
  import opened Catalog
  import opened Similarity

  /** `found` with `ing` appended, unless it already holds it. */
  function Added(found: seq<string>, ing: string): seq<string> {
    if ing in found then found else found + [ing]
  }

  /** What the inner loop leaves in `found` after scanning `vocab` for token `w`. */
  function ScanToken(found: seq<string>, w: string, vocab: seq<string>): seq<string>
  {
    if vocab == [] then found
    else
      var before := ScanToken(found, w, vocab[..|vocab| - 1]);
      var ing := vocab[|vocab| - 1];
      if IsSimilar(w, ing) then Added(before, ing) else before
  }

  /** What both loops leave in the result after the tokens `words`. */
  function ScanTokens(words: seq<string>, vocab: seq<string>): seq<string>
  {
    if words == [] then []
    else ScanToken(ScanTokens(words[..|words| - 1], vocab), words[|words| - 1], vocab)
  }

  /** The tokens the extraction compares: the lower-cased text, split on whitespace. */
  function Tokens(text: string): seq<string> {
    Words(Lower(text))
  }

  /** The detected ingredients for `text` against `vocab`. */
  function Extracted(text: string, vocab: seq<string>): seq<string> {
    ScanTokens(Tokens(text), vocab)
  }

  /** The ingredient-detection loop of TranscribeThread.run, lifted out. */
  method ExtractIngredients(text: string, vocab: seq<string>) returns (detected: seq<string>)
    ensures detected == Extracted(text, vocab)
  {
    var words := Words(Lower(text));
    detected := [];
    for wi := 0 to |words|
      invariant detected == ScanTokens(words[..wi], vocab)
    {
      var w := words[wi];
      ghost var start := detected;
      assert words[..wi + 1][..wi] == words[..wi];
      for vi := 0 to |vocab|
        invariant detected == ScanToken(start, w, vocab[..vi])
      {
        assert vocab[..vi + 1][..vi] == vocab[..vi];
        var ing := vocab[vi];
        if IsSimilar(w, ing) {
          if ing !in detected {
            detected := detected + [ing];
          }
        }
      }
      assert vocab[..|vocab|] == vocab;
    }
    assert words[..|words|] == words;
  }

  // A reference definition: every (token, entry) hit in loop order, then
  // only the first occurrence of each entry kept.

  /** The entries of `vocab` similar to token `w`, in vocabulary order. */
  function Hits(w: string, vocab: seq<string>): (h: seq<string>)
    ensures forall x :: x in h <==> x in vocab && IsSimilar(w, x)
  {
    if vocab == [] then []
    else
      var init := Hits(w, vocab[..|vocab| - 1]);
      var ing := vocab[|vocab| - 1];
      assert forall x :: x in vocab <==> x in vocab[..|vocab| - 1] || x == ing by {
        assert vocab == vocab[..|vocab| - 1] + [ing];
      }
      if IsSimilar(w, ing) then init + [ing] else init
  }

  /** Some token of `words` is similar to `x` exactly when one of `init` is, or the last one is. */
  lemma SomeTokenStep(words: seq<string>, init: seq<string>, x: string)
    requires words != [] && init == words[..|words| - 1]
    ensures (exists k :: 0 <= k < |words| && IsSimilar(words[k], x)) <==>
      (exists k :: 0 <= k < |init| && IsSimilar(init[k], x)) || IsSimilar(words[|words| - 1], x)
  {
    assert forall k :: 0 <= k < |init| ==> init[k] == words[k];
  }

  /** The hits of every token in turn. */
  function AllHits(words: seq<string>, vocab: seq<string>): (h: seq<string>)
    ensures forall x :: x in h <==> x in vocab && exists k :: 0 <= k < |words| && IsSimilar(words[k], x)
  {
    if words == [] then []
    else
      var n := |words| - 1;
      var h := AllHits(words[..n], vocab) + Hits(words[n], vocab);
      assert forall x :: x in h <==> x in vocab && exists k :: 0 <= k < |words| && IsSimilar(words[k], x) by {
        forall x ensures x in h <==> x in vocab && exists k :: 0 <= k < |words| && IsSimilar(words[k], x) {
          SomeTokenStep(words, words[..n], x);
        }
      }
      h
  }

  /** `found` followed by each element of `xs` not seen before, in order. */
  function AddAll(found: seq<string>, xs: seq<string>): seq<string>
  {
    if xs == [] then found else Added(AddAll(found, xs[..|xs| - 1]), xs[|xs| - 1])
  }

  /** The first occurrence of each element of `xs`, in order. */
  function Dedup(xs: seq<string>): seq<string> {
    AddAll([], xs)
  }

  /** The position of the first occurrence of `x` in `xs`. */
  function First(xs: seq<string>, x: string): (p: nat)
    requires x in xs
    ensures p < |xs| && xs[p] == x && forall q :: 0 <= q < p ==> xs[q] != x
  {
    if xs[0] == x then 0 else 1 + First(xs[1..], x)
  }

  lemma {:induction false} FirstAppend(xs: seq<string>, y: string, x: string)
    requires x in xs
    ensures First(xs + [y], x) == First(xs, x)
  {
    if xs[0] != x {
      assert (xs + [y])[1..] == xs[1..] + [y];
      FirstAppend(xs[1..], y, x);
    }
  }

  lemma {:induction false} AddAllConcat(found: seq<string>, xs: seq<string>, ys: seq<string>)
    ensures AddAll(found, xs + ys) == AddAll(AddAll(found, xs), ys)
    decreases |ys|
  {
    if ys == [] {
      assert xs + ys == xs;
    } else {
      var n := |ys| - 1;
      assert (xs + ys)[..|xs + ys| - 1] == xs + ys[..n];
      AddAllConcat(found, xs, ys[..n]);
    }
  }

  /**
   * Scanning the vocabulary for one token adds that token's hits, each
   * unless already present.
   */
  lemma {:induction false} ScanTokenAddsHits(found: seq<string>, w: string, vocab: seq<string>)
    ensures ScanToken(found, w, vocab) == AddAll(found, Hits(w, vocab))
    decreases |vocab|
  {
    if vocab != [] {
      var n := |vocab| - 1;
      ScanTokenAddsHits(found, w, vocab[..n]);
      if IsSimilar(w, vocab[n]) {
        var h := Hits(w, vocab[..n]);
        assert (h + [vocab[n]])[..|h|] == h;
      }
    }
  }

  /**
   * The loops compute the reference: the first occurrence of each entry
   * among the hits of all tokens, in order.
   */
  lemma {:induction false} ScanTokensIsDedupOfHits(words: seq<string>, vocab: seq<string>)
    ensures ScanTokens(words, vocab) == Dedup(AllHits(words, vocab))
    decreases |words|
  {
    if words != [] {
      var n := |words| - 1;
      ScanTokensIsDedupOfHits(words[..n], vocab);
      ScanTokenAddsHits(ScanTokens(words[..n], vocab), words[n], vocab);
      AddAllConcat([], AllHits(words[..n], vocab), Hits(words[n], vocab));
    }
  }

  /** AddAll keeps `found`, adds exactly the new elements of `xs`, and repeats none. */
  lemma {:induction false} AddAllProperties(found: seq<string>, xs: seq<string>)
    requires NoDuplicates(found)
    ensures NoDuplicates(AddAll(found, xs))
    ensures forall x :: x in AddAll(found, xs) <==> x in found || x in xs
    decreases |xs|
  {
    if xs != [] {
      var n := |xs| - 1;
      AddAllProperties(found, xs[..n]);
      assert xs == xs[..n] + [xs[n]];
    }
  }

  /** Dedup orders its elements by their first occurrence in the input. */
  lemma {:induction false} DedupOrder(xs: seq<string>)
    ensures forall x :: x in Dedup(xs) <==> x in xs
    ensures forall p, q :: 0 <= p < q < |Dedup(xs)| ==> First(xs, Dedup(xs)[p]) < First(xs, Dedup(xs)[q])
    decreases |xs|
  {
    AddAllProperties([], xs);
    if xs != [] {
      var n := |xs| - 1;
      var init, x := xs[..n], xs[n];
      assert xs == init + [x];
      DedupOrder(init);
      var d := Dedup(init);
      forall y | y in init ensures First(xs, y) == First(init, y) {
        FirstAppend(init, x, y);
      }
      if x !in d {
        assert x !in init;
        assert First(xs, x) == n;
        forall p | 0 <= p < |d| ensures First(xs, d[p]) < First(xs, x) {
          assert d[p] in init;
        }
      }
    }
  }

  /** No ingredient is detected twice. */
  lemma ExtractedNoDuplicates(text: string, vocab: seq<string>)
    ensures NoDuplicates(Extracted(text, vocab))
  {
    ScanTokensIsDedupOfHits(Tokens(text), vocab);
    AddAllProperties([], AllHits(Tokens(text), vocab));
  }

  /**
   * An entry is detected exactly when it is in the vocabulary and some
   * token of the lower-cased text is similar to it.
   */
  lemma ExtractedMember(text: string, vocab: seq<string>, x: string)
    ensures x in Extracted(text, vocab) <==>
      x in vocab && exists k :: 0 <= k < |Tokens(text)| && IsSimilar(Tokens(text)[k], x)
  {
    ScanTokensIsDedupOfHits(Tokens(text), vocab);
    AddAllProperties([], AllHits(Tokens(text), vocab));
  }

  /**
   * Detected entries are ordered by the first hit that names them: by the
   * first token similar to them, then by vocabulary order within it.
   */
  lemma ExtractedOrder(text: string, vocab: seq<string>)
    ensures forall x :: x in Extracted(text, vocab) <==> x in AllHits(Tokens(text), vocab)
    ensures forall p, q :: 0 <= p < q < |Extracted(text, vocab)| ==>
      First(AllHits(Tokens(text), vocab), Extracted(text, vocab)[p])
      < First(AllHits(Tokens(text), vocab), Extracted(text, vocab)[q])
  {
    ScanTokensIsDedupOfHits(Tokens(text), vocab);
    DedupOrder(AllHits(Tokens(text), vocab));
  }

  /** Empty or whitespace-only text detects nothing. */
  lemma BlankTextDetectsNothing(text: string, vocab: seq<string>)
    requires AllSpace(text)
    ensures Extracted(text, vocab) == []
  {
    assert AllSpace(Lower(text));
  }

  /** A token spelled exactly like a vocabulary entry always detects it. */
  lemma ExactTokenDetected(text: string, vocab: seq<string>, k: nat)
    requires k < |Tokens(text)| && Tokens(text)[k] in vocab
    ensures Tokens(text)[k] in Extracted(text, vocab)
  {
    SimilarReflexive(Tokens(text)[k]);
    ExtractedMember(text, vocab, Tokens(text)[k]);
  }

  /** With the catalog's vocabulary, only catalog ingredients are detected. */
  lemma DetectedAreCatalogIngredients(text: string, vocab: seq<string>)
    requires IsVocabulary(vocab, Recipes)
    ensures forall x :: x in Extracted(text, vocab) ==> x in AllIngredients(Recipes)
  {
    forall x | x in Extracted(text, vocab) ensures x in AllIngredients(Recipes) {
      ExtractedMember(text, vocab, x);
    }
  }
}
