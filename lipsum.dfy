/**
 * The lorem ipsum chain and `lipsum(n)`. The chain learns the lorem ipsum passage
 * and then the first book of Cicero's De finibus; both texts live in files outside
 * the library, so here they are parameters.
 */
module Lipsum {
  import opened Tokens
  import opened Markov

  /** The table of the global chain: the lorem ipsum passage, then the first book. */
  ghost function LoremTable(loremIpsum: string, liberPrimus: string): Table {
    Learned(Learned(map[], loremIpsum), liberPrimus)
  }

  /** The passage opens with "Lorem ipsum" and has a word after it. */
  ghost predicate OpensWithLoremIpsum(loremIpsum: string) {
    var ws := Split(loremIpsum);
    |ws| >= 3 && ws[0] == "Lorem" && ws[1] == "ipsum"
  }

  /** The initialiser of `LOREM_IPSUM_CHAIN`: a new chain that learns both texts in turn. */
  method LoremIpsumChain(loremIpsum: string, liberPrimus: string) returns (chain: MarkovChain)
    ensures fresh(chain) && chain.Valid()
    ensures chain.table == LoremTable(loremIpsum, liberPrimus)
  {
    chain := new MarkovChain();
    chain.Learn(loremIpsum);
    chain.Learn(liberPrimus);
  }

  /** After both texts, ("Lorem", "ipsum") is a key, so the chain is not empty. */
  lemma LoremIpsumIsKey(loremIpsum: string, liberPrimus: string)
    requires OpensWithLoremIpsum(loremIpsum)
    ensures ("Lorem", "ipsum") in LoremTable(loremIpsum, liberPrimus)
  {
    var ws := Split(loremIpsum);
    LearnAllHasWindow(map[], ws, 0);
    assert BigramAt(ws, 0) == ("Lorem", "ipsum");
    LearnKeepsPrefix(Learned(map[], loremIpsum), liberPrimus, ("Lorem", "ipsum"));
  }

  /**
   * `lipsum(n)`: `n` words of the global chain from ("Lorem", "ipsum"). When the
   * passage opens with those words, the text has exactly `n` words and, from two
   * words on, begins with "Lorem ipsum".
   */
  method Lipsum(n: nat, loremIpsum: string, liberPrimus: string, rng: Rng) returns (s: string, ghost keys: seq<Bigram>)
    requires IsChooser(rng)
    ensures WellFormed(LoremTable(loremIpsum, liberPrimus))
    ensures IsKeyOrder(keys, LoremTable(loremIpsum, liberPrimus))
    ensures s == Join(Take(LoremTable(loremIpsum, liberPrimus), keys, rng, ("Lorem", "ipsum"), 0, n))
    ensures OpensWithLoremIpsum(loremIpsum) ==> |Split(s)| == n
    ensures OpensWithLoremIpsum(loremIpsum) && n >= 2 ==> |s| >= 11 && s[..11] == "Lorem ipsum"
  {
    var chain := LoremIpsumChain(loremIpsum, liberPrimus);
    s, keys := chain.GenerateFrom(n, ("Lorem", "ipsum"), rng);
    if OpensWithLoremIpsum(loremIpsum) {
      var t := chain.table;
      LoremIpsumIsKey(loremIpsum, liberPrimus);
      assert IsToken("Lorem");
      if n >= 2 {
        GeneratedFromKey(t, keys, rng, ("Lorem", "ipsum"), 0, n);
        assert "Lorem" + " " + "ipsum" == "Lorem ipsum";
      }
    }
  }
}
