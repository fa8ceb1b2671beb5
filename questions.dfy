/**
 * The question bank: two read-only corpora of prompts and the draw that
 * picks an unused prompt of a category, starting over once the category is
 * used up. `random.choice` is the `pick` argument: the draw takes the
 * element at `pick % |pool|`, so every element of the pool can be drawn.
 */
module QuestionBank {
  import opened Base

  datatype Category = Truth | Dare

  /** The corpora, loaded once; a file that failed to load gives []. */
  datatype Bank = Bank(truths: seq<string>, dares: seq<string>)

  function Corpus(b: Bank, c: Category): seq<string>
  {
    if c == Truth then b.truths else b.dares
  }

  /** The prompts of the corpus that are not in the used list, in corpus order. */
  function Available(corpus: seq<string>, used: seq<string>): (r: seq<string>)
    ensures forall q :: q in r <==> q in corpus && q !in used
    ensures |r| <= |corpus|
  {
    if corpus == [] then []
    else (if corpus[0] in used then [] else [corpus[0]]) + Available(corpus[1..], used)
  }

  /** A drawn prompt and the category's used list after the draw. */
  datatype Drawn = Drawn(question: string, used: seq<string>)

  /**
   * get_random_question: draw from the unused prompts and append the
   * prompt to the used list; when none is unused, start the list over and
   * draw from the whole corpus. An empty corpus makes the draw fail (None).
   */
  function GetRandomQuestion(b: Bank, c: Category, used: seq<string>, pick: nat): (r: Option<Drawn>)
    ensures r.None? <==> Corpus(b, c) == []
    ensures r.Some? ==> r.value.question in Corpus(b, c)
    ensures r.Some? && (exists q :: q in Corpus(b, c) && q !in used) ==>
              r.value.question !in used && r.value.used == used + [r.value.question]
    ensures r.Some? && (forall q :: q in Corpus(b, c) ==> q in used) ==>
              r.value.used == [r.value.question]
  {
    var corpus := Corpus(b, c);
    var available := Available(corpus, used);
    var pool := if available == [] then corpus else available;
    var base := if available == [] then [] else used;
    if pool == [] then None
    else
      var q := pool[pick % |pool|];
      Some(Drawn(q, base + [q]))
  }

  /** Several draws of one category in a row; None when one of them fails. */
  function Draws(b: Bank, c: Category, used: seq<string>, picks: seq<nat>): Option<(seq<string>, seq<string>)>
    decreases |picks|
  {
    if picks == [] then Some(([], used))
    else
      match GetRandomQuestion(b, c, used, picks[0])
      case None => None
      case Some(d) =>
        match Draws(b, c, d.used, picks[1..])
        case None => None
        case Some(rest) => Some(([d.question] + rest.0, rest.1))
  }

  lemma {:induction false} DistinctCardinality(s: seq<string>)
    requires Distinct(s)
    ensures |set x | x in s| == |s|
  {
    if s != [] {
      var last := s[|s| - 1];
      var init := s[..|s| - 1];
      assert Distinct(init);
      DistinctCardinality(init);
      assert (set x | x in s) == (set x | x in init) + {last};
      assert last !in (set x | x in init);
    }
  }

  lemma {:induction false} SubsetCardinality(a: set<string>, b: set<string>)
    requires a <= b
    ensures |a| <= |b|
    decreases a
  {
    if a != {} {
      var x :| x in a;
      SubsetCardinality(a - {x}, b - {x});
    }
  }

  /** A used list that is duplicate-free and shorter than the number of distinct prompts leaves one unused. */
  lemma SomeUnused(corpus: seq<string>, used: seq<string>)
    requires Distinct(used)
    requires |used| < |set q | q in corpus|
    ensures exists q :: q in corpus && q !in used
  {
    if forall q :: q in corpus ==> q in used {
      DistinctCardinality(used);
      SubsetCardinality(set q | q in corpus, set x | x in used);
      assert false;
    }
  }

  /**
   * No prompt repeats within a session until the category is used up:
   * starting from a duplicate-free used list of corpus prompts, as many
   * draws as there are prompts left all succeed, give pairwise different
   * prompts none of which was used before, and extend the used list by
   * exactly those prompts.
   */
  lemma {:induction false} NoRepeatUntilExhausted(b: Bank, c: Category, used: seq<string>, picks: seq<nat>)
    requires Distinct(used)
    requires forall q :: q in used ==> q in Corpus(b, c)
    requires |used| + |picks| <= |set q | q in Corpus(b, c)|
    ensures Draws(b, c, used, picks).Some?
    ensures Draws(b, c, used, picks).value.1 == used + Draws(b, c, used, picks).value.0
    ensures Distinct(Draws(b, c, used, picks).value.1)
    decreases |picks|
  {
    if picks != [] {
      DrawStep(b, c, used, picks[0]);
      var d := GetRandomQuestion(b, c, used, picks[0]).value;
      NoRepeatUntilExhausted(b, c, d.used, picks[1..]);
      DrawsUnfold(b, c, used, picks);
      var rest := Draws(b, c, d.used, picks[1..]).value;
      SeqAssoc(used, d.question, rest.0);
    }
  }

  /** Helper: appending one drawn question and then the rest is appending both. */
  lemma SeqAssoc(used: seq<string>, q: string, drawn: seq<string>)
    ensures used + ([q] + drawn) == (used + [q]) + drawn
  {
  }

  lemma DrawsUnfold(b: Bank, c: Category, used: seq<string>, picks: seq<nat>)
    requires picks != [] && GetRandomQuestion(b, c, used, picks[0]).Some?
    requires Draws(b, c, GetRandomQuestion(b, c, used, picks[0]).value.used, picks[1..]).Some?
    ensures var d := GetRandomQuestion(b, c, used, picks[0]).value;
            var rest := Draws(b, c, d.used, picks[1..]).value;
            Draws(b, c, used, picks) == Some(([d.question] + rest.0, rest.1))
  {
  }

  /** One draw while unused prompts remain keeps the used list duplicate-free and within the corpus. */
  lemma DrawStep(b: Bank, c: Category, used: seq<string>, pick: nat)
    requires Distinct(used)
    requires forall q :: q in used ==> q in Corpus(b, c)
    requires |used| < |set q | q in Corpus(b, c)|
    ensures GetRandomQuestion(b, c, used, pick).Some?
    ensures var d := GetRandomQuestion(b, c, used, pick).value;
            && d.question !in used && d.used == used + [d.question]
            && Distinct(d.used)
            && forall q :: q in d.used ==> q in Corpus(b, c)
  {
    SomeUnused(Corpus(b, c), used);
    var d := GetRandomQuestion(b, c, used, pick).value;
    DistinctAppend(used, d.question);
  }
}
