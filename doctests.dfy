/**
 * The doc-tests and unit tests of `src/lib.rs`, stated for every random source
 * and every order of the key list, and proved from the model. Each is proved
 * for a text by way of its list of words: the general facts are lemmas over
 * word variables, and the literal texts only enter in small steps at the end.
 */
module DocTests {
  import opened Wrappers
  import opened Tokens
  import opened Markov

  const FooBar: seq<string> := ["foo", "bar", "baz", "quuz"]
  const Rainbow: seq<string> := ["red", "orange", "yellow", "green", "blue", "indigo", "violet"]

  /** Small steps about joins of literal word lists, kept apart so that the literals stay cheap for the solver. */
  lemma JoinTwo(a: string, b: string)
    ensures Join([a, b]) == a + " " + b
  {
    assert [a, b][..1] == [a];
  }

  lemma JoinThree(a: string, b: string, c: string)
    ensures Join([a, b, c]) == a + " " + b + " " + c
  {
    JoinCons(a, [b, c]);
    JoinTwo(b, c);
    assert [a] + [b, c] == [a, b, c];
  }

  /** A text of exactly three words gives a table of one key. */
  lemma LearnThree(text: string, a: string, b: string, c: string)
    requires Split(text) == [a, b, c]
    ensures Learned(map[], text) == map[(a, b) := [c]]
  {
    var w := Window((a, b), c);
    assert Windows([a, b, c]) == [w];
    LearnAllSnoc(map[], [], w);
    assert [] + [w] == [w];
    assert Existing(map[], (a, b)) + [c] == [c];
  }

  /** A text of four words whose two bigrams differ gives a table of two keys. */
  lemma LearnFour(text: string, a: string, b: string, c: string, d: string)
    requires Split(text) == [a, b, c, d]
    requires (a, b) != (b, c)
    ensures Learned(map[], text) == map[(a, b) := [c], (b, c) := [d]]
  {
    var w1 := Window((a, b), c);
    var w2 := Window((b, c), d);
    WindowsSnoc([a, b], c);
    WindowsSnoc([a, b, c], d);
    assert [a, b] + [c] == [a, b, c] && [a, b, c] + [d] == [a, b, c, d];
    assert Windows([a, b, c, d]) == [w1, w2];
    LearnAllSnoc(map[], [], w1);
    assert [] + [w1] == [w1];
    assert Existing(map[], (a, b)) + [c] == [c];
    LearnAllSnoc(map[], [w1], w2);
    assert [w1] + [w2] == [w1, w2];
    assert Existing(map[(a, b) := [c]], (b, c)) + [d] == [d];
  }

  /** A text of three words learned on top of a table appends the third word to the first bigram's list. */
  lemma LearnOnTop(t: Table, text: string, a: string, b: string, c: string)
    requires Split(text) == [a, b, c]
    ensures Learned(t, text) == t[(a, b) := Existing(t, (a, b)) + [c]]
  {
    var w := Window((a, b), c);
    assert Windows([a, b, c]) == [w];
    LearnAllSnoc(t, [], w);
    assert [] + [w] == [w];
  }

  lemma FooBarWords(text: string)
    requires text == "foo bar baz quuz"
    ensures Split(text) == FooBar
  {
    JoinAppend(["foo", "bar"], ["baz", "quuz"]);
    assert ["foo", "bar"] + ["baz", "quuz"] == FooBar;
    JoinTwo("foo", "bar");
    JoinTwo("baz", "quuz");
    assert ("foo" + " " + "bar") + " " + ("baz" + " " + "quuz") == "foo bar baz quuz";
    assert AllTokens(FooBar);
    SplitJoin(FooBar);
  }

  /** `chain_map`: learning "foo bar baz quuz" gives exactly two keys. */
  lemma ChainMap(text: string)
    requires text == "foo bar baz quuz"
    ensures Learned(map[], text) == map[("foo", "bar") := ["baz"], ("bar", "baz") := ["quuz"]]
    ensures |Learned(map[], text)| == 2
  {
    FooBarWords(text);
    assert ("foo", "bar") != ("bar", "baz");
    LearnFour(text, "foo", "bar", "baz", "quuz");
    assert map[("foo", "bar") := ["baz"], ("bar", "baz") := ["quuz"]].Keys == {("foo", "bar"), ("bar", "baz")};
  }

  lemma ThreeWords(text: string, a: string, b: string, c: string)
    requires IsToken(a) && IsToken(b) && IsToken(c)
    requires text == a + " " + b + " " + c
    ensures Split(text) == [a, b, c]
  {
    JoinThree(a, b, c);
    SplitJoin([a, b, c]);
  }

  lemma RedGreenWords(text: string, last: string)
    requires last == "blue" || last == "yellow"
    requires text == "red green " + last
    ensures Split(text) == ["red", "green", last]
  {
    assert IsToken("red") && IsToken("green") && IsToken(last);
    assert "red green " + last == "red" + " " + "green" + " " + last;
    ThreeWords(text, "red", "green", last);
  }

  /** Two texts of three words with the same first bigram: the second appends its third word. */
  lemma LearnSameBigram(first: string, second: string, a: string, b: string, c: string, d: string)
    requires Split(first) == [a, b, c] && Split(second) == [a, b, d]
    ensures Learned(map[], first) == map[(a, b) := [c]]
    ensures Learned(Learned(map[], first), second) == map[(a, b) := [c, d]]
  {
    LearnThree(first, a, b, c);
    LearnOnTop(Learned(map[], first), second, a, b, d);
    assert [c] + [d] == [c, d];
  }

  /** The doc-test of `learn`: a second text appends after what the first left. */
  lemma LearnTwice(first: string, second: string)
    requires first == "red green blue" && second == "red green yellow"
    ensures Learned(map[], first) == map[("red", "green") := ["blue"]]
    ensures Learned(Learned(map[], first), second) == map[("red", "green") := ["blue", "yellow"]]
  {
    RedGreenWords(first, "blue");
    RedGreenWords(second, "yellow");
    LearnSameBigram(first, second, "red", "green", "blue", "yellow");
  }

  /** `words` on a chain that has learned a text of three words. */
  lemma WordsOfThree(chain: MarkovChain, text: string, a: string, b: string, c: string, k: Bigram)
    requires Split(text) == [a, b, c] && chain.table == Learned(map[], text)
    ensures chain.Words((a, b)) == Some([c])
    ensures k != (a, b) ==> chain.Words(k) == None
  {
    LearnThree(text, a, b, c);
  }

  /** The doc-test of `words`, on a chain object that has learned "red green blue". */
  lemma WordsAfterLearn(chain: MarkovChain, text: string)
    requires text == "red green blue" && chain.table == Learned(map[], text)
    ensures chain.Words(("red", "green")) == Some(["blue"])
    ensures chain.Words(("foo", "bar")) == None
  {
    RedGreenWords(text, "blue");
    assert ("foo", "bar") != ("red", "green");
    WordsOfThree(chain, text, "red", "green", "blue", ("foo", "bar"));
  }

  /** `empty_chain`: a fresh chain generates the empty text, for any count. */
  method EmptyChain(n: nat, rng: Rng) returns (s: string)
    requires IsChooser(rng)
    ensures s == ""
  {
    var chain := new MarkovChain();
    ghost var keys;
    s, keys := chain.Generate(n, rng);
  }

  /*
   * The rainbow text's join is proved in three literal steps kept apart: with all
   * of them in one lemma the string literals swamp the solver.
   */
  lemma RainbowJoinFront()
    ensures Join(["red", "orange", "yellow"]) == "red orange yellow"
  {
    JoinThree("red", "orange", "yellow");
    assert "red" + " " + "orange" + " " + "yellow" == "red orange yellow";
  }

  lemma RainbowJoinBack()
    ensures Join(["green", "blue", "indigo", "violet"]) == "green blue indigo violet"
  {
    JoinAppend(["green", "blue"], ["indigo", "violet"]);
    assert ["green", "blue"] + ["indigo", "violet"] == ["green", "blue", "indigo", "violet"];
    JoinTwo("green", "blue");
    JoinTwo("indigo", "violet");
    assert ("green" + " " + "blue") + " " + ("indigo" + " " + "violet") == "green blue indigo violet";
  }

  lemma RainbowConcat()
    ensures "red orange yellow" + " " + "green blue indigo violet" == "red orange yellow green blue indigo violet"
  {
  }

  lemma RainbowJoin()
    ensures Join(Rainbow) == "red orange yellow green blue indigo violet"
  {
    var xs := ["red", "orange", "yellow"];
    var ys := ["green", "blue", "indigo", "violet"];
    assert xs + ys == Rainbow;
    JoinAppend(xs, ys);
    RainbowJoinFront();
    RainbowJoinBack();
    RainbowConcat();
  }

  lemma RainbowWords(text: string)
    requires text == "red orange yellow green blue indigo violet"
    ensures Split(text) == Rainbow
  {
    RainbowJoin();
    assert AllTokens(Rainbow);
    SplitJoin(Rainbow);
  }

  lemma RainbowDistinct()
    ensures DistinctBigrams(Rainbow)
  {
    forall i, j | 0 <= i < j < |Rainbow| - 1
      ensures BigramAt(Rainbow, i) != BigramAt(Rainbow, j)
    {
      assert Rainbow[i][0] != Rainbow[j][0];
    }
  }

  lemma RainbowWalkJoin()
    ensures Join(Rainbow[1..6]) == "orange yellow green blue indigo"
  {
    assert Rainbow[1..6] == ["orange", "yellow"] + ["green", "blue", "indigo"];
    JoinAppend(["orange", "yellow"], ["green", "blue", "indigo"]);
    JoinTwo("orange", "yellow");
    JoinThree("green", "blue", "indigo");
    assert ("orange" + " " + "yellow") + " " + ("green" + " " + "blue" + " " + "indigo") == "orange yellow green blue indigo";
  }

  /** The text generated along a stretch of a text without repeated bigrams. */
  lemma WalkDistinctJoin(text: string, ws: seq<string>, keys: seq<Bigram>, rng: Rng, i: nat, n: nat, out: string)
    requires Split(text) == ws && DistinctBigrams(ws)
    requires CanWalk(Learned(map[], text), keys, rng)
    requires i + 2 < |ws| && i + n < |ws|
    requires Join(ws[i..i + n]) == out
    ensures Join(Take(Learned(map[], text), keys, rng, (ws[i], ws[i + 1]), 0, n)) == out
  {
    WalkDistinct(text, ws, keys, rng, i, n);
  }

  /**
   * `generate_from`: with a single successor along the path, the walk from
   * ("orange", "yellow") is the same whatever the random source answers.
   */
  lemma GenerateFromRainbow(text: string, keys: seq<Bigram>, rng: Rng)
    requires text == "red orange yellow green blue indigo violet"
    requires CanWalk(Learned(map[], text), keys, rng)
    ensures Join(Take(Learned(map[], text), keys, rng, ("orange", "yellow"), 0, 5)) == "orange yellow green blue indigo"
  {
    RainbowWords(text);
    RainbowDistinct();
    RainbowWalkJoin();
    WalkDistinctJoin(text, Rainbow, keys, rng, 1, 5, "orange yellow green blue indigo");
  }

  /** The same test through the object interface. */
  method GenerateFromTest(rng: Rng) returns (s: string)
    requires IsChooser(rng)
    ensures s == "orange yellow green blue indigo"
  {
    var text := "red orange yellow green blue indigo violet";
    var chain := new MarkovChain();
    chain.Learn(text);
    ghost var keys;
    s, keys := chain.GenerateFrom(5, ("orange", "yellow"), rng);
    GenerateFromRainbow(text, keys, rng);
  }

  /** In a table of one key, every recovery lands on that key. */
  lemma RecoverSingleKey(t: Table, keys: seq<Bigram>, rng: Rng, k: Bigram, s: Bigram, d: nat)
    requires CanWalk(t, keys, rng) && t.Keys == {k}
    ensures Recover(t, keys, rng, s, d).0 == k
  {
    assert k in t;
    assert Recover(t, keys, rng, s, d).0 in t.Keys;
  }

  /**
   * Three words of the walk over a one-key table, from any bigram: that key or one
   * the table does not know.
   */
  lemma WalkOneKey(t: Table, keys: seq<Bigram>, rng: Rng, a: string, b: string, c: string, s: Bigram)
    requires CanWalk(t, keys, rng) && t == map[(a, b) := [c]]
    ensures Take(t, keys, rng, s, 0, 3) == [s.0, b, b]
  {
    assert t.Keys == {(a, b)};
    RecoverSingleKey(t, keys, rng, (a, b), s, 0);
    var s1 := Step(t, keys, rng, s, 0);
    assert s1.state == (b, c);
    RecoverSingleKey(t, keys, rng, (a, b), s1.state, s1.drawn);
    var s2 := Step(t, keys, rng, s1.state, s1.drawn);
    assert s2.state == (b, c);
    assert Take(t, keys, rng, s2.state, s2.drawn, 1) == [b];
  }

  /** Learning a text of three words, then walking three steps from any bigram. */
  lemma WalkThreeWords(text: string, keys: seq<Bigram>, rng: Rng, a: string, b: string, c: string, s: Bigram)
    requires Split(text) == [a, b, c]
    requires CanWalk(Learned(map[], text), keys, rng)
    ensures Take(Learned(map[], text), keys, rng, s, 0, 3) == [s.0, b, b]
  {
    LearnThree(text, a, b, c);
    WalkOneKey(Learned(map[], text), keys, rng, a, b, c, s);
  }

  /*
   * Literal steps for the two tests below, each kept in a lemma of its own: inside
   * the tests the string literals swamp the solver.
   */
  lemma XyzWords(text: string)
    requires text == "xxx yyy zzz"
    ensures Split(text) == ["xxx", "yyy", "zzz"]
  {
    assert IsToken("xxx") && IsToken("yyy") && IsToken("zzz");
    assert "xxx yyy zzz" == "xxx" + " " + "yyy" + " " + "zzz";
    ThreeWords(text, "xxx", "yyy", "zzz");
  }

  lemma XyyJoin()
    ensures Join(["xxx", "yyy", "yyy"]) == "xxx yyy yyy"
    ensures Join(["xxx", "yyy", "yyy"]) != "xxx yyy zzz"
  {
    JoinThree("xxx", "yyy", "yyy");
    assert "xxx" + " " + "yyy" + " " + "yyy" == "xxx yyy yyy";
    assert "xxx yyy yyy"[8] != "xxx yyy zzz"[8];
  }

  lemma FooBarBazWords(text: string)
    requires text == "foo bar baz"
    ensures Split(text) == ["foo", "bar", "baz"]
  {
    assert IsToken("foo") && IsToken("bar") && IsToken("baz");
    assert "foo bar baz" == "foo" + " " + "bar" + " " + "baz";
    ThreeWords(text, "foo", "bar", "baz");
  }

  lemma XbbJoin()
    ensures Join(["xxx", "bar", "bar"]) == "xxx bar bar"
  {
    JoinThree("xxx", "bar", "bar");
    assert "xxx" + " " + "bar" + " " + "bar" == "xxx bar bar";
  }

  /**
   * `generate_last_bigram`: from ("xxx", "yyy") the walk reaches ("yyy", "zzz"),
   * which is not a key; the stream still yields that bigram's first word and then
   * recovers, so the text is "xxx yyy yyy" and not "xxx yyy zzz".
   */
  lemma GenerateLastBigram(text: string, keys: seq<Bigram>, rng: Rng)
    requires text == "xxx yyy zzz"
    requires CanWalk(Learned(map[], text), keys, rng)
    ensures Join(Take(Learned(map[], text), keys, rng, ("xxx", "yyy"), 0, 3)) == "xxx yyy yyy"
    ensures Join(Take(Learned(map[], text), keys, rng, ("xxx", "yyy"), 0, 3)) != text
  {
    XyzWords(text);
    WalkThreeWords(text, keys, rng, "xxx", "yyy", "zzz", ("xxx", "yyy"));
    XyyJoin();
  }

  /**
   * `generate_from_no_panic`: from a bigram the chain has never seen, the walk
   * jumps to the only key and still yields three words.
   */
  lemma GenerateFromUnknown(text: string, keys: seq<Bigram>, rng: Rng)
    requires text == "foo bar baz"
    requires CanWalk(Learned(map[], text), keys, rng)
    ensures Join(Take(Learned(map[], text), keys, rng, ("xxx", "yyy"), 0, 3)) == "xxx bar bar"
  {
    FooBarBazWords(text);
    WalkThreeWords(text, keys, rng, "foo", "bar", "baz", ("xxx", "yyy"));
    XbbJoin();
  }
}
