/** Generated names: the first free adjective-noun pair in cyclic order from a seed. */
module NameTables {

  const ADJECTIVES_A: seq<string> := ["agile", "amber", "bold", "brave"]
  const ADJECTIVES_B: seq<string> := ["bright", "brisk", "calm", "clever"]
  const ADJECTIVES_C: seq<string> := ["cool", "coral", "cosmic", "crisp"]
  const ADJECTIVES_D: seq<string> := ["daring", "eager", "fair", "fast"]
  const ADJECTIVES_E: seq<string> := ["gentle", "golden", "grand", "happy"]
  const ADJECTIVES_F: seq<string> := ["hazy", "keen", "kind", "lively"]
  const ADJECTIVES_G: seq<string> := ["lucid", "lucky", "mellow", "merry"]
  const ADJECTIVES_H: seq<string> := ["misty", "noble", "quiet", "rapid"]
  const ADJECTIVES_I: seq<string> := ["ready", "rosy", "royal", "sage"]
  const ADJECTIVES_J: seq<string> := ["sharp", "silver", "sleek", "solar"]
  const ADJECTIVES_K: seq<string> := ["steady", "swift", "tidy", "vivid"]
  const ADJECTIVES_L: seq<string> := ["warm", "wild", "wise", "witty"]
  const FIRST_ADJECTIVES: seq<string> :=
    ADJECTIVES_A + ADJECTIVES_B + ADJECTIVES_C + ADJECTIVES_D + ADJECTIVES_E + ADJECTIVES_F
  const LAST_ADJECTIVES: seq<string> :=
    ADJECTIVES_G + ADJECTIVES_H + ADJECTIVES_I + ADJECTIVES_J + ADJECTIVES_K + ADJECTIVES_L
  const ADJECTIVES: seq<string> := FIRST_ADJECTIVES + LAST_ADJECTIVES

  const NOUNS_A: seq<string> := ["badger", "bear", "beaver", "bison"]
  const NOUNS_B: seq<string> := ["cedar", "comet", "crane", "dolphin"]
  const NOUNS_C: seq<string> := ["eagle", "ember", "falcon", "fern"]
  const NOUNS_D: seq<string> := ["fox", "gecko", "heron", "ibis"]
  const NOUNS_E: seq<string> := ["jay", "koala", "lark", "lynx"]
  const NOUNS_F: seq<string> := ["maple", "marmot", "otter", "owl"]
  const NOUNS_G: seq<string> := ["panda", "pine", "puma", "raven"]
  const NOUNS_H: seq<string> := ["reef", "robin", "sable", "seal"]
  const NOUNS_I: seq<string> := ["shark", "sparrow", "spruce", "starling"]
  const NOUNS_J: seq<string> := ["tiger", "trout", "turtle", "whale"]
  const NOUNS_K: seq<string> := ["willow", "wolf", "wren", "yak"]
  const FIRST_NOUNS: seq<string> := NOUNS_A + NOUNS_B + NOUNS_C + NOUNS_D + NOUNS_E + NOUNS_F
  const LAST_NOUNS: seq<string> := NOUNS_G + NOUNS_H + NOUNS_I + NOUNS_J + NOUNS_K
  const NOUNS: seq<string> := FIRST_NOUNS + LAST_NOUNS

  const ADJECTIVE_COUNT: nat := 48
  const NOUN_COUNT: nat := 44

  function Letter(word: string, k: nat): nat {
    if k < |word| then word[k] as nat else 0
  }

  /** Alphabetical order on the first four letters. */
  predicate Before(a: string, b: string) {
    || Letter(a, 0) < Letter(b, 0)
    || (Letter(a, 0) == Letter(b, 0) && (
          || Letter(a, 1) < Letter(b, 1)
          || (Letter(a, 1) == Letter(b, 1) && (
                || Letter(a, 2) < Letter(b, 2)
                || (Letter(a, 2) == Letter(b, 2) && Letter(a, 3) < Letter(b, 3))))))
  }

  predicate Rising(words: seq<string>) {
    forall i :: 0 <= i < |words| - 1 ==> Before(words[i], words[i + 1])
  }

  predicate Long(words: seq<string>) {
    forall i :: 0 <= i < |words| ==> |words[i]| >= 4
  }

  lemma FourRise(words: seq<string>)
    requires |words| == 4
    requires Before(words[0], words[1]) && Before(words[1], words[2]) && Before(words[2], words[3])
    requires |words[0]| >= 4 && |words[1]| >= 4 && |words[2]| >= 4 && |words[3]| >= 4
    ensures Rising(words) && Long(words)
  {
    hide Before;
  }

  lemma AdjectivesA()
    ensures Rising(ADJECTIVES_A) && Long(ADJECTIVES_A)
  {
    hide Rising, Long;
    FourRise(ADJECTIVES_A);
  }

  lemma AdjectivesB()
    ensures Rising(ADJECTIVES_B) && Long(ADJECTIVES_B)
  {
    hide Rising, Long;
    FourRise(ADJECTIVES_B);
  }

  lemma AdjectivesC()
    ensures Rising(ADJECTIVES_C) && Long(ADJECTIVES_C)
  {
    hide Rising, Long;
    FourRise(ADJECTIVES_C);
  }

  lemma AdjectivesD()
    ensures Rising(ADJECTIVES_D) && Long(ADJECTIVES_D)
  {
    hide Rising, Long;
    FourRise(ADJECTIVES_D);
  }

  lemma AdjectivesE()
    ensures Rising(ADJECTIVES_E) && Long(ADJECTIVES_E)
  {
    hide Rising, Long;
    FourRise(ADJECTIVES_E);
  }

  lemma AdjectivesF()
    ensures Rising(ADJECTIVES_F) && Long(ADJECTIVES_F)
  {
    hide Rising, Long;
    FourRise(ADJECTIVES_F);
  }

  lemma AdjectivesG()
    ensures Rising(ADJECTIVES_G) && Long(ADJECTIVES_G)
  {
    hide Rising, Long;
    FourRise(ADJECTIVES_G);
  }

  lemma AdjectivesH()
    ensures Rising(ADJECTIVES_H) && Long(ADJECTIVES_H)
  {
    hide Rising, Long;
    FourRise(ADJECTIVES_H);
  }

  lemma AdjectivesI()
    ensures Rising(ADJECTIVES_I) && Long(ADJECTIVES_I)
  {
    hide Rising, Long;
    FourRise(ADJECTIVES_I);
  }

  lemma AdjectivesJ()
    ensures Rising(ADJECTIVES_J) && Long(ADJECTIVES_J)
  {
    hide Rising, Long;
    FourRise(ADJECTIVES_J);
  }

  lemma AdjectivesK()
    ensures Rising(ADJECTIVES_K) && Long(ADJECTIVES_K)
  {
    hide Rising, Long;
    FourRise(ADJECTIVES_K);
  }

  lemma AdjectivesL()
    ensures Rising(ADJECTIVES_L) && Long(ADJECTIVES_L)
  {
    hide Rising, Long;
    FourRise(ADJECTIVES_L);
  }

  lemma NounsA()
    ensures Rising(NOUNS_A)
  {
  }

  lemma NounsB()
    ensures Rising(NOUNS_B)
  {
  }

  lemma NounsC()
    ensures Rising(NOUNS_C)
  {
  }

  lemma NounsD()
    ensures Rising(NOUNS_D)
  {
  }

  lemma NounsE()
    ensures Rising(NOUNS_E)
  {
  }

  lemma NounsF()
    ensures Rising(NOUNS_F)
  {
  }

  lemma NounsG()
    ensures Rising(NOUNS_G)
  {
  }

  lemma NounsH()
    ensures Rising(NOUNS_H)
  {
  }

  lemma NounsI()
    ensures Rising(NOUNS_I)
  {
  }

  lemma NounsJ()
    ensures Rising(NOUNS_J)
  {
  }

  lemma NounsK()
    ensures Rising(NOUNS_K)
  {
  }

  lemma RisingConcat(a: seq<string>, b: seq<string>)
    requires Rising(a) && Rising(b) && a != [] && b != [] && Before(a[|a| - 1], b[0])
    ensures Rising(a + b)
  {
    hide Before;
  }

  lemma LongConcat(a: seq<string>, b: seq<string>)
    requires Long(a) && Long(b)
    ensures Long(a + b)
  {
  }

  lemma FirstAdjectives()
    ensures |FIRST_ADJECTIVES| == 24 && Rising(FIRST_ADJECTIVES) && Long(FIRST_ADJECTIVES)
  {
    AdjectivesA();
    AdjectivesB();
    AdjectivesC();
    AdjectivesD();
    AdjectivesE();
    AdjectivesF();
    RisingConcat(ADJECTIVES_A, ADJECTIVES_B);
    RisingConcat(ADJECTIVES_A + ADJECTIVES_B, ADJECTIVES_C);
    RisingConcat(ADJECTIVES_A + ADJECTIVES_B + ADJECTIVES_C, ADJECTIVES_D);
    RisingConcat(ADJECTIVES_A + ADJECTIVES_B + ADJECTIVES_C + ADJECTIVES_D, ADJECTIVES_E);
    RisingConcat(ADJECTIVES_A + ADJECTIVES_B + ADJECTIVES_C + ADJECTIVES_D + ADJECTIVES_E, ADJECTIVES_F);
    LongConcat(ADJECTIVES_A, ADJECTIVES_B);
    LongConcat(ADJECTIVES_A + ADJECTIVES_B, ADJECTIVES_C);
    LongConcat(ADJECTIVES_A + ADJECTIVES_B + ADJECTIVES_C, ADJECTIVES_D);
    LongConcat(ADJECTIVES_A + ADJECTIVES_B + ADJECTIVES_C + ADJECTIVES_D, ADJECTIVES_E);
    LongConcat(ADJECTIVES_A + ADJECTIVES_B + ADJECTIVES_C + ADJECTIVES_D + ADJECTIVES_E, ADJECTIVES_F);
  }

  lemma LastAdjectives()
    ensures |LAST_ADJECTIVES| == 24 && Rising(LAST_ADJECTIVES) && Long(LAST_ADJECTIVES)
  {
    AdjectivesG();
    AdjectivesH();
    AdjectivesI();
    AdjectivesJ();
    AdjectivesK();
    AdjectivesL();
    RisingConcat(ADJECTIVES_G, ADJECTIVES_H);
    RisingConcat(ADJECTIVES_G + ADJECTIVES_H, ADJECTIVES_I);
    RisingConcat(ADJECTIVES_G + ADJECTIVES_H + ADJECTIVES_I, ADJECTIVES_J);
    RisingConcat(ADJECTIVES_G + ADJECTIVES_H + ADJECTIVES_I + ADJECTIVES_J, ADJECTIVES_K);
    RisingConcat(ADJECTIVES_G + ADJECTIVES_H + ADJECTIVES_I + ADJECTIVES_J + ADJECTIVES_K, ADJECTIVES_L);
    LongConcat(ADJECTIVES_G, ADJECTIVES_H);
    LongConcat(ADJECTIVES_G + ADJECTIVES_H, ADJECTIVES_I);
    LongConcat(ADJECTIVES_G + ADJECTIVES_H + ADJECTIVES_I, ADJECTIVES_J);
    LongConcat(ADJECTIVES_G + ADJECTIVES_H + ADJECTIVES_I + ADJECTIVES_J, ADJECTIVES_K);
    LongConcat(ADJECTIVES_G + ADJECTIVES_H + ADJECTIVES_I + ADJECTIVES_J + ADJECTIVES_K, ADJECTIVES_L);
  }

  lemma AdjectivesRise()
    ensures |ADJECTIVES| == ADJECTIVE_COUNT && Rising(ADJECTIVES) && Long(ADJECTIVES)
  {
    FirstAdjectives();
    LastAdjectives();
    RisingConcat(FIRST_ADJECTIVES, LAST_ADJECTIVES);
    LongConcat(FIRST_ADJECTIVES, LAST_ADJECTIVES);
  }

  lemma FirstNouns()
    ensures |FIRST_NOUNS| == 24 && Rising(FIRST_NOUNS)
  {
    NounsA();
    NounsB();
    NounsC();
    NounsD();
    NounsE();
    NounsF();
    RisingConcat(NOUNS_A, NOUNS_B);
    RisingConcat(NOUNS_A + NOUNS_B, NOUNS_C);
    RisingConcat(NOUNS_A + NOUNS_B + NOUNS_C, NOUNS_D);
    RisingConcat(NOUNS_A + NOUNS_B + NOUNS_C + NOUNS_D, NOUNS_E);
    RisingConcat(NOUNS_A + NOUNS_B + NOUNS_C + NOUNS_D + NOUNS_E, NOUNS_F);
  }

  lemma LastNouns()
    ensures |LAST_NOUNS| == 20 && Rising(LAST_NOUNS)
  {
    NounsG();
    NounsH();
    NounsI();
    NounsJ();
    NounsK();
    RisingConcat(NOUNS_G, NOUNS_H);
    RisingConcat(NOUNS_G + NOUNS_H, NOUNS_I);
    RisingConcat(NOUNS_G + NOUNS_H + NOUNS_I, NOUNS_J);
    RisingConcat(NOUNS_G + NOUNS_H + NOUNS_I + NOUNS_J, NOUNS_K);
  }

  lemma NounsRise()
    ensures |NOUNS| == NOUN_COUNT && Rising(NOUNS)
  {
    FirstNouns();
    LastNouns();
    RisingConcat(FIRST_NOUNS, LAST_NOUNS);
  }

  lemma NotBeforeItself(word: string)
    ensures !Before(word, word)
  {
  }

  lemma {:induction false} RisingFar(words: seq<string>, i: nat, j: nat)
    requires Rising(words) && i < j < |words|
    ensures Before(words[i], words[j])
  {
    if i + 1 < j {
      RisingFar(words, i, j - 1);
    }
  }
}

module GeneratedNames {
  import opened Basics
  import opened NameTables

  const COUNT: nat := ADJECTIVE_COUNT * NOUN_COUNT

  function Adjective(i: nat): string
    requires i < ADJECTIVE_COUNT
  {
    AdjectivesRise();
    ADJECTIVES[i]
  }

  function Noun(i: nat): string
    requires i < NOUN_COUNT
  {
    NounsRise();
    NOUNS[i]
  }

  /** The catalogue's name at an index: the quotient picks the adjective, the remainder the noun. */
  function Name(index: nat): string
    requires index < COUNT
  {
    Adjective(index / NOUN_COUNT) + "-" + Noun(index % NOUN_COUNT)
  }

  predicate SameLetters(a: string, b: string) {
    Letter(a, 0) == Letter(b, 0) && Letter(a, 1) == Letter(b, 1) && Letter(a, 2) == Letter(b, 2)
    && Letter(a, 3) == Letter(b, 3)
  }

  lemma AdjectiveByLetters(i: nat, j: nat)
    requires i < ADJECTIVE_COUNT && j < ADJECTIVE_COUNT
    requires SameLetters(Adjective(i), Adjective(j))
    ensures i == j
  {
    AdjectivesRise();
    if i < j {
      RisingFar(ADJECTIVES, i, j);
    } else if j < i {
      RisingFar(ADJECTIVES, j, i);
    }
  }

  lemma NounsDiffer(i: nat, j: nat)
    requires i < NOUN_COUNT && j < NOUN_COUNT && Noun(i) == Noun(j)
    ensures i == j
  {
    hide Before, Rising;
    NounsRise();
    NotBeforeItself(Noun(i));
    if i < j {
      RisingFar(NOUNS, i, j);
    } else if j < i {
      RisingFar(NOUNS, j, i);
    }
  }

  /** No name occurs at two indices. */
  lemma NamesDiffer(i: nat, j: nat)
    requires i < COUNT && j < COUNT && Name(i) == Name(j)
    ensures i == j
  {
    hide Adjective, Noun;
    var a, b := Adjective(i / NOUN_COUNT), Adjective(j / NOUN_COUNT);
    LongAdjective(i / NOUN_COUNT);
    LongAdjective(j / NOUN_COUNT);
    forall k | 0 <= k < 4
      ensures Letter(a, k) == Letter(b, k)
    {
      assert Name(i)[k] == a[k] && Name(j)[k] == b[k];
    }
    AdjectiveByLetters(i / NOUN_COUNT, j / NOUN_COUNT);
    assert Noun(i % NOUN_COUNT) == Name(i)[|a| + 1..];
    assert Noun(j % NOUN_COUNT) == Name(j)[|b| + 1..];
    NounsDiffer(i % NOUN_COUNT, j % NOUN_COUNT);
  }

  lemma LongAdjective(i: nat)
    requires i < ADJECTIVE_COUNT
    ensures |Adjective(i)| >= 4
  {
    AdjectivesRise();
  }

  /** The index that is `offset` places after the seed's, in cyclic order. */
  function Position(seed: U64, offset: nat): (index: nat)
    ensures index < COUNT
  {
    (seed % COUNT + offset) % COUNT
  }

  function FindFrom(seed: U64, offset: nat, unavailable: set<string>): Option<string>
    decreases COUNT - offset
  {
    if offset >= COUNT then None
    else if Name(Position(seed, offset)) !in unavailable then Some(Name(Position(seed, offset)))
    else FindFrom(seed, offset + 1, unavailable)
  }

  function FromSeed(seed: U64, unavailable: set<string>): Option<string> {
    FindFrom(seed, 0, unavailable)
  }

  predicate Taken(seed: U64, from: nat, until: nat, unavailable: set<string>) {
    forall k :: from <= k < until ==> Name(Position(seed, k)) in unavailable
  }

  lemma {:induction false} FindMeaning(seed: U64, offset: nat, unavailable: set<string>)
    requires offset <= COUNT
    ensures match FindFrom(seed, offset, unavailable)
            case Some(name) =>
              exists k :: offset <= k < COUNT && name == Name(Position(seed, k)) && name !in unavailable
                          && Taken(seed, offset, k, unavailable)
            case None => Taken(seed, offset, COUNT, unavailable)
    decreases COUNT - offset
  {
    hide Name, Position;
    if offset < COUNT && Name(Position(seed, offset)) in unavailable {
      FindMeaning(seed, offset + 1, unavailable);
      var r := FindFrom(seed, offset + 1, unavailable);
      if r.Some? {
        var k :| offset + 1 <= k < COUNT && r.value == Name(Position(seed, k)) && r.value !in unavailable
                 && Taken(seed, offset + 1, k, unavailable);
        assert Taken(seed, offset, k, unavailable);
      }
    } else if offset < COUNT {
      assert Taken(seed, offset, offset, unavailable);
    }
  }

  /** Every index is some number of places after the seed's. */
  lemma PositionCovers(seed: U64, index: nat) returns (offset: nat)
    requires index < COUNT
    ensures offset < COUNT && Position(seed, offset) == index
  {
    var start := seed % COUNT;
    offset := if index >= start then index - start else index + COUNT - start;
  }

  /** The result is the first free name in cyclic order from the seed; there is none
      exactly when every name of the catalogue is taken. */
  lemma FirstFree(seed: U64, unavailable: set<string>)
    ensures match FromSeed(seed, unavailable)
            case Some(name) =>
              exists k :: 0 <= k < COUNT && name == Name(Position(seed, k)) && name !in unavailable
                          && Taken(seed, 0, k, unavailable)
            case None => forall index :: 0 <= index < COUNT ==> Name(index) in unavailable
  {
    hide Name, Position;
    FindMeaning(seed, 0, unavailable);
    if FromSeed(seed, unavailable).None? {
      forall index | 0 <= index < COUNT
        ensures Name(index) in unavailable
      {
        var offset := PositionCovers(seed, index);
      }
    }
  }

  function Catalogue(n: nat): set<string>
    requires n <= COUNT
  {
    if n == 0 then {} else Catalogue(n - 1) + {Name(n - 1)}
  }

  lemma {:induction false} CatalogueSize(n: nat)
    requires n <= COUNT
    ensures |Catalogue(n)| == n
    ensures forall name :: name in Catalogue(n) ==> exists i :: 0 <= i < n && name == Name(i)
  {
    hide Name;
    if n > 0 {
      CatalogueSize(n - 1);
      if Name(n - 1) in Catalogue(n - 1) {
        var i :| 0 <= i < n - 1 && Name(n - 1) == Name(i);
        NamesDiffer(n - 1, i);
      }
    }
  }

  /** While fewer names are taken than the catalogue holds, there is one to give. */
  lemma FewerTakenThanNames(seed: U64, unavailable: set<string>)
    requires |unavailable| < COUNT
    ensures FromSeed(seed, unavailable).Some?
  {
    hide Name, FindFrom;
    FirstFree(seed, unavailable);
    if FromSeed(seed, unavailable).None? {
      CatalogueSize(COUNT);
      assert Catalogue(COUNT) <= unavailable;
      SubsetSize(Catalogue(COUNT), unavailable);
    }
  }

  lemma SubsetSize(a: set<string>, b: set<string>)
    requires a <= b
    ensures |a| <= |b|
  {
    assert b == a + (b - a);
  }
}
