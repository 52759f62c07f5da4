/**
 * The sentence assembler (package generationManager): lexicon filtering,
 * word copies, random samplers, verb agreement, the bounded walk over parts
 * of speech that builds a sentence, and its rendering as text.
 *
 * The generator's pseudo-random source is replaced by nondeterministic
 * choice (`:|` and `*`), so every property below holds for every sequence
 * of random outcomes. Lexicon words are WordValue snapshots of Word objects.
 */
module GenerationManager {
  import opened Text
  import opened WordManager
  import WordProperties

  datatype Option<T> = None | Some(value: T)

  function Max(a: int, b: int): int {
    if a < b then b else a
  }

  /** Every lexicon word is non-empty and exactly as its constructor built it. */
  predicate ValidLexicon(words: seq<WordValue>) {
    forall i :: 0 <= i < |words| ==> ValidEntry(words[i])
  }

  /** The lexicon words of one part of speech, in lexicon order. */
  function WordsByPartOfSpeech(words: seq<WordValue>, pos: PartOfSpeech): (r: seq<WordValue>)
    ensures |r| <= |words|
    ensures forall w :: w in r <==> w in words && w.partOfSpeech == pos
  {
    if words == [] then []
    else (if words[0].partOfSpeech == pos then [words[0]] else []) + WordsByPartOfSpeech(words[1..], pos)
  }

  /** Filtering keeps the lexicon's order: it distributes over concatenation. */
  lemma {:induction false} WordsByPartOfSpeechConcat(a: seq<WordValue>, b: seq<WordValue>, pos: PartOfSpeech)
    ensures WordsByPartOfSpeech(a + b, pos) == WordsByPartOfSpeech(a, pos) + WordsByPartOfSpeech(b, pos)
  {
    if a == [] {
      assert a + b == b;
    } else {
      assert (a + b)[1..] == a[1..] + b;
      WordsByPartOfSpeechConcat(a[1..], b, pos);
    }
  }

  /** The words of one genus, in order (the second filter of the adjective sampler). */
  function WordsOfGenus(words: seq<WordValue>, genus: Genus): (r: seq<WordValue>)
    ensures |r| <= |words|
    ensures forall w :: w in r <==> w in words && w.genus == genus
  {
    if words == [] then []
    else (if words[0].genus == genus then [words[0]] else []) + WordsOfGenus(words[1..], genus)
  }

  /**
   * copyWord: a new Word built from the original's base form, genus and part of
   * speech, with the original's maps copied over the ones its constructor made.
   */
  function CopyWord(original: WordValue): (copy: WordValue)
    ensures copy.value == original.value && copy.genus == original.genus
    ensures copy.partOfSpeech == original.partOfSpeech
    ensures forall d :: d in original.declensionVal ==>
              d in copy.declensionVal && copy.declensionVal[d] == original.declensionVal[d]
    ensures forall t :: t in original.timesVal ==> t in copy.timesVal && copy.timesVal[t] == original.timesVal[t]
    ensures ValidEntry(original) ==> copy == original
  {
    var built := NewWord(original.value, original.genus, original.partOfSpeech);
    var copy := built.(declensionVal := built.declensionVal + original.declensionVal,
                       timesVal := built.timesVal + original.timesVal);
    assert ValidEntry(original) ==> copy.declensionVal == original.declensionVal && copy.timesVal == original.timesVal;
    copy
  }

  /** The past-tense ending agreement adds for a subject of each genus. */
  function AgreementEnding(genus: Genus): string {
    if genus == Masculine then "л"
    else if genus == Feminine then "ла"
    else if genus == Neuter then "ло"
    else "ли"
  }

  /**
   * conjugateVerb: a copy of the verb whose value is its past form, with every
   * "л" replaced by the subject's ending unless the subject is masculine.
   */
  function ConjugateVerb(verb: WordValue, genus: Genus): (r: WordValue)
    requires Past in CopyWord(verb).timesVal
    ensures r.genus == verb.genus && r.partOfSpeech == verb.partOfSpeech
    ensures r.declensionVal == CopyWord(verb).declensionVal && r.timesVal == CopyWord(verb).timesVal
    ensures genus == Masculine ==> r.value == CopyWord(verb).timesVal[Past]
    ensures genus != Masculine ==> r.value == ReplaceEvery(CopyWord(verb).timesVal[Past], 'л', AgreementEnding(genus))
  {
    AgreePast(CopyWord(verb), genus)
  }

  /** The agreement step of conjugateVerb: the word with its past form as value, "л" replaced unless the subject is masculine. */
  function AgreePast(w: WordValue, genus: Genus): (r: WordValue)
    requires Past in w.timesVal
    ensures r == w.(value := r.value)
  {
    var pastForm := w.timesVal[Past];
    w.(value := if genus == Masculine then pastForm else ReplaceEvery(pastForm, 'л', AgreementEnding(genus)))
  }

  /** The past form a lexicon verb in -ть carries, written in lower case: stem + л / ла / ло / л by the verb's genus. */
  lemma {:induction false} TjVerbPast(verb: WordValue)
    requires ValidEntry(verb) && verb.partOfSpeech == Verb
    requires EndsWith(Lower(verb.value), "ть") && !IsUpper(verb.value[0])
    ensures Past in CopyWord(verb).timesVal
    ensures CopyWord(verb).timesVal[Past] == DropLast(Lower(verb.value), 2) + TjPastEnding(verb.genus)
  {
    WordProperties.TjVerbTenses(verb.value, verb.genus);
  }

  /**
   * For a lexicon verb in -ть whose stem has no л and whose own genus gives the
   * plain л past, agreement gives stem + л / ла / ло / ли by the subject's genus.
   */
  lemma {:induction false} ConjugateTjVerb(verb: WordValue, genus: Genus)
    requires ValidEntry(verb) && verb.partOfSpeech == Verb
    requires EndsWith(Lower(verb.value), "ть") && !IsUpper(verb.value[0])
    requires verb.genus != Feminine && verb.genus != Neuter
    requires 'л' !in DropLast(Lower(verb.value), 2)
    ensures ConjugateVerb(verb, genus).value == DropLast(Lower(verb.value), 2) + AgreementEnding(genus)
  {
    var stem := DropLast(Lower(verb.value), 2);
    TjVerbPast(verb);
    assert CopyWord(verb).timesVal[Past] == stem + "л";
    ReplaceEveryConcat(stem, "л", 'л', AgreementEnding(genus));
    ReplaceEveryAbsent(stem, 'л', AgreementEnding(genus));
    assert ReplaceEvery("л", 'л', AgreementEnding(genus)) == AgreementEnding(genus);
  }

  /** The lexicon's читать (no genus): читал, читала and читали for masculine, feminine and unmarked subjects. */
  lemma ChitatAgreement(w: string)
    requires w == "читать"
    ensures ConjugateVerb(NewWord(w, NoGenus, Verb), Masculine).value == "читал"
    ensures ConjugateVerb(NewWord(w, NoGenus, Verb), Feminine).value == "читала"
    ensures ConjugateVerb(NewWord(w, NoGenus, Verb), NoGenus).value == "читали"
  {
    var verb := NewWord(w, NoGenus, Verb);
    ChitatStem(w);
    ConjugateTjVerb(verb, Masculine);
    ConjugateTjVerb(verb, Feminine);
    ConjugateTjVerb(verb, NoGenus);
  }

  lemma ChitatStem(w: string)
    requires w == "читать"
    ensures Lower(w) == w && !IsUpper(w[0]) && EndsWith(w, "ть") && 'л' !in DropLast(w, 2)
    ensures DropLast(w, 2) + AgreementEnding(Masculine) == "читал"
    ensures DropLast(w, 2) + AgreementEnding(Feminine) == "читала"
    ensures DropLast(w, 2) + AgreementEnding(NoGenus) == "читали"
  {
    LowerKeepsLowerCase(w);
  }

  /** Replace-all on лежал: both л are replaced. */
  lemma ReplaceInLezhal(past: string)
    requires past == "лежал"
    ensures ReplaceEvery(past, 'л', "ла") == "лаежала"
  {
    assert ReplaceEvery(past[4..], 'л', "ла") == "ла";
    assert ReplaceEvery(past[3..], 'л', "ла") == "ала";
    assert ReplaceEvery(past[2..], 'л', "ла") == "жала";
    assert ReplaceEvery(past[1..], 'л', "ла") == "ежала";
  }

  /**
   * Agreement replaces every л of the past form, the stem's too: the lexicon's
   * лежать gives лаежала, not лежала, for a feminine subject.
   */
  lemma LezhatAgreement(w: string)
    requires w == "лежать"
    ensures ConjugateVerb(NewWord(w, NoGenus, Verb), Masculine).value == "лежал"
    ensures ConjugateVerb(NewWord(w, NoGenus, Verb), Feminine).value == "лаежала"
  {
    var verb := NewWord(w, NoGenus, Verb);
    LezhatStem(w);
    TjVerbPast(verb);
    ReplaceInLezhal(DropLast(w, 2) + TjPastEnding(NoGenus));
  }

  lemma LezhatStem(w: string)
    requires w == "лежать"
    ensures Lower(w) == w && !IsUpper(w[0]) && EndsWith(w, "ть")
    ensures DropLast(w, 2) + TjPastEnding(NoGenus) == "лежал"
  {
    LowerKeepsLowerCase(w);
  }

  /** A copy of a lexicon word of the given part of speech, unchanged. */
  ghost predicate IsCopyOf(x: WordValue, pos: PartOfSpeech, words: seq<WordValue>) {
    x in words && x.partOfSpeech == pos
  }

  /** A lexicon word of the given part of speech whose value is replaced by its form in case c. */
  ghost predicate InCase(x: WordValue, pos: PartOfSpeech, c: Declension, words: seq<WordValue>) {
    exists w :: w in words && w.partOfSpeech == pos && c in w.declensionVal && x == w.(value := w.declensionVal[c])
  }

  /**
   * A lexicon verb conjugated for a subject of the given genus: its past form
   * agreed with the subject (a lexicon verb is its own copy, see ConjugatedWitness).
   */
  ghost predicate IsConjugated(x: WordValue, genus: Genus, words: seq<WordValue>) {
    exists v :: v in words && v.partOfSpeech == Verb && Past in v.timesVal && x == AgreePast(v, genus)
  }

  /** What the walk may append after `prev`; agreement is the genus of the sentence's first word. */
  ghost predicate Follows(prev: WordValue, next: WordValue, agreement: Genus, words: seq<WordValue>) {
    match prev.partOfSpeech
    case Verb => IsCopyOf(next, Adverb, words) || IsCopyOf(next, Preposition, words) || InCase(next, Noun, Accusative, words)
    case Preposition => InCase(next, Noun, Prepositional, words)
    case Noun => IsCopyOf(next, Preposition, words)
    case Adverb => IsConjugated(next, agreement, words)
    case _ => false
  }

  /** The subject's index: 1 when an adjective was put in front of it, else 0. */
  function SubjectIndex(s: seq<WordValue>): nat
    requires s != []
  {
    if s[0].partOfSpeech == Adjective then 1 else 0
  }

  /** How many words precede the walk: the optional adjective, the subject and, when the lexicon has a verb, the verb. */
  function PrefixLength(s: seq<WordValue>, words: seq<WordValue>): nat
    requires s != []
  {
    SubjectIndex(s) + if WordsByPartOfSpeech(words, Verb) != [] then 2 else 1
  }

  /** The shape of every non-empty sentence the generator returns. */
  ghost predicate Assembled(s: seq<WordValue>, words: seq<WordValue>, maxLength: int) {
    && s != []
    && var k := SubjectIndex(s);
    && var p := PrefixLength(s, words);
    && p <= |s|
    && InCase(s[k], Noun, Nominative, words)
    && (k == 1 ==> InCase(s[0], Adjective, Nominative, words) && s[0].genus == s[1].genus)
    && (p == k + 2 ==> IsConjugated(s[k + 1], s[k].genus, words))
    && (forall i :: p <= i < |s| ==> Follows(s[i - 1], s[i], s[0].genus, words))
    && (p < |s| ==> |s| <= maxLength)
  }

  /** What the samplers rely on about a lexicon word: its copy is itself, and it has all six cases and a past form. */
  lemma LexiconEntry(words: seq<WordValue>, w: WordValue)
    requires ValidLexicon(words) && w in words
    ensures CopyWord(w) == w
    ensures forall d :: d in w.declensionVal
    ensures Past in w.timesVal
  {
    var i :| 0 <= i < |words| && words[i] == w;
    assert ValidEntry(words[i]);
  }

  /** The opening's words: [adjective] subject [verb]. */
  function OpeningWords(adjective: Option<WordValue>, subject: WordValue, verb: Option<WordValue>): (s: seq<WordValue>)
    ensures |s| == (if adjective.Some? then 1 else 0) + 1 + (if verb.Some? then 1 else 0)
    ensures adjective.Some? ==> s[0] == adjective.value
    ensures s[if adjective.Some? then 1 else 0] == subject
    ensures verb.Some? ==> s[|s| - 1] == verb.value
  {
    (if adjective.Some? then [adjective.value] else []) + [subject] + (if verb.Some? then [verb.value] else [])
  }

  /**
   * An opening made of a nominative subject, optionally preceded by a nominative
   * adjective of its genus and followed, exactly when the lexicon has a verb, by
   * a verb conjugated for it, has the shape of a generated sentence.
   */
  lemma {:induction false} OpeningAssembled(adjective: Option<WordValue>, subject: WordValue, verb: Option<WordValue>, words: seq<WordValue>)
    requires InCase(subject, Noun, Nominative, words)
    requires adjective.Some? ==> InCase(adjective.value, Adjective, Nominative, words) && adjective.value.genus == subject.genus
    requires verb.Some? <==> WordsByPartOfSpeech(words, Verb) != []
    requires verb.Some? ==> IsConjugated(verb.value, subject.genus, words)
    ensures var s := OpeningWords(adjective, subject, verb);
            |s| == PrefixLength(s, words) && Assembled(s, words, 0)
  {
    InCasePart(subject, Noun, Nominative, words);
    if adjective.Some? {
      InCasePart(adjective.value, Adjective, Nominative, words);
    }
  }

  /** An assembled sentence has a nominative subject, so some lexicon word is a noun. */
  lemma AssembledHasNoun(s: seq<WordValue>, words: seq<WordValue>, maxLength: int)
    requires Assembled(s, words, maxLength)
    ensures exists i :: 0 <= i < |words| && words[i].partOfSpeech == Noun
  {
    var w :| w in words && w.partOfSpeech == Noun && Nominative in w.declensionVal
             && s[SubjectIndex(s)] == w.(value := w.declensionVal[Nominative]);
    var i :| 0 <= i < |words| && words[i] == w;
  }

  /** An assembled sentence is no longer than maxLength, or than its opening of at most three words. */
  lemma AssembledLength(s: seq<WordValue>, words: seq<WordValue>, maxLength: int)
    requires Assembled(s, words, maxLength)
    ensures |s| <= Max(maxLength, 3)
  {
    assert PrefixLength(s, words) <= 3;
  }

  /** Appending a word that may follow the last one, below the length limit, keeps the shape. */
  lemma {:induction false} AssembledExtend(s: seq<WordValue>, x: WordValue, words: seq<WordValue>, maxLength: int)
    requires Assembled(s, words, maxLength) && |s| < maxLength
    requires Follows(s[|s| - 1], x, s[0].genus, words)
    ensures Assembled(s + [x], words, maxLength)
  {
    var t := s + [x];
    assert t[0] == s[0];
    assert SubjectIndex(t) == SubjectIndex(s) && PrefixLength(t, words) == PrefixLength(s, words);
    var k := SubjectIndex(s);
    var p := PrefixLength(s, words);
    assert t[k] == s[k];
    assert k == 1 ==> t[1] == s[1];
    assert p == k + 2 ==> t[k + 1] == s[k + 1];
    forall i | p <= i < |t|
      ensures Follows(t[i - 1], t[i], t[0].genus, words)
    {
      if i < |s| {
        assert t[i - 1] == s[i - 1] && t[i] == s[i];
      } else {
        assert t[i - 1] == s[|s| - 1] && t[i] == x;
      }
    }
  }

  /**
   * Every verb in an assembled sentence is a lexicon verb conjugated for the
   * subject's genus: the first word is the subject or an adjective of its genus.
   */
  lemma {:induction false} VerbsAgreeWithSubject(s: seq<WordValue>, words: seq<WordValue>, maxLength: int)
    requires Assembled(s, words, maxLength)
    ensures forall i :: 0 <= i < |s| && s[i].partOfSpeech == Verb ==> IsConjugated(s[i], s[SubjectIndex(s)].genus, words)
  {
    var k := SubjectIndex(s);
    var p := PrefixLength(s, words);
    assert s[0].genus == s[k].genus;
    forall i | 0 <= i < |s| && s[i].partOfSpeech == Verb
      ensures IsConjugated(s[i], s[k].genus, words)
    {
      assert s[k].partOfSpeech == Noun;
      if i >= p {
        assert Follows(s[i - 1], s[i], s[0].genus, words);
      }
    }
  }

  /** A lexicon verb that has a past form, conjugated for a genus, is a conjugated verb of that genus. */
  lemma ConjugatedWitness(v: WordValue, genus: Genus, words: seq<WordValue>)
    requires ValidLexicon(words) && v in words && v.partOfSpeech == Verb && Past in CopyWord(v).timesVal
    ensures IsConjugated(ConjugateVerb(v, genus), genus, words)
  {
    LexiconEntry(words, v);
  }

  /** A word in a case form keeps the part of speech of the lexicon word it came from. */
  lemma InCasePart(x: WordValue, pos: PartOfSpeech, c: Declension, words: seq<WordValue>)
    requires InCase(x, pos, c, words)
    ensures x.partOfSpeech == pos
  {
  }

  /** A conjugated verb is a verb. */
  lemma ConjugatedPart(x: WordValue, genus: Genus, words: seq<WordValue>)
    requires IsConjugated(x, genus, words)
    ensures x.partOfSpeech == Verb
  {
  }

  /** A successor is a noun, a verb, an adverb or a preposition. */
  lemma FollowsPart(prev: WordValue, next: WordValue, agreement: Genus, words: seq<WordValue>)
    requires Follows(prev, next, agreement, words)
    ensures next.partOfSpeech in {Noun, Verb, Adverb, Preposition}
  {
    match prev.partOfSpeech
    case Verb =>
      if InCase(next, Noun, Accusative, words) {
        InCasePart(next, Noun, Accusative, words);
      }
    case Preposition =>
      InCasePart(next, Noun, Prepositional, words);
    case Noun =>
    case Adverb =>
      ConjugatedPart(next, agreement, words);
  }

  /**
   * The successor rules hold at every position of an assembled sentence: after a
   * verb an adverb, a preposition or an accusative noun; after a preposition a
   * prepositional noun; after a noun other than the subject a preposition; after
   * an adverb a verb agreeing with the subject. Only index 0 may hold an adjective.
   */
  lemma {:induction false} Successors(s: seq<WordValue>, words: seq<WordValue>, maxLength: int, i: nat)
    requires Assembled(s, words, maxLength)
    requires 0 < i < |s|
    ensures s[i].partOfSpeech in {Noun, Verb, Adverb, Preposition}
    ensures s[i - 1].partOfSpeech == Verb ==>
              IsCopyOf(s[i], Adverb, words) || IsCopyOf(s[i], Preposition, words) || InCase(s[i], Noun, Accusative, words)
    ensures s[i - 1].partOfSpeech == Preposition ==> InCase(s[i], Noun, Prepositional, words)
    ensures s[i - 1].partOfSpeech == Noun && i - 1 != SubjectIndex(s) ==> IsCopyOf(s[i], Preposition, words)
    ensures s[i - 1].partOfSpeech == Adverb ==> IsConjugated(s[i], s[SubjectIndex(s)].genus, words)
  {
    var k := SubjectIndex(s);
    if i < PrefixLength(s, words) {
      PrefixSuccessor(s, words, maxLength, i);
    } else {
      WalkSuccessor(s, words, maxLength, i);
      FollowsPart(s[i - 1], s[i], s[k].genus, words);
    }
  }

  /** Inside the opening a word follows the adjective (the subject) or the subject (the verb). */
  lemma {:induction false} PrefixSuccessor(s: seq<WordValue>, words: seq<WordValue>, maxLength: int, i: nat)
    requires Assembled(s, words, maxLength)
    requires 0 < i < PrefixLength(s, words)
    ensures var k := SubjectIndex(s);
            || (i == k && s[i - 1].partOfSpeech == Adjective && s[i].partOfSpeech == Noun)
            || (i == k + 1 && s[i - 1].partOfSpeech == Noun && s[i].partOfSpeech == Verb)
  {
    if i == SubjectIndex(s) {
      InCasePart(s[i], Noun, Nominative, words);
    } else {
      VerbAfterSubject(s, words, maxLength);
    }
  }

  /** When the opening has a verb, it follows the subject. */
  lemma VerbAfterSubject(s: seq<WordValue>, words: seq<WordValue>, maxLength: int)
    requires Assembled(s, words, maxLength)
    requires SubjectIndex(s) + 1 < PrefixLength(s, words)
    ensures s[SubjectIndex(s)].partOfSpeech == Noun && s[SubjectIndex(s) + 1].partOfSpeech == Verb
  {
    var k := SubjectIndex(s);
    InCasePart(s[k], Noun, Nominative, words);
    ConjugatedPart(s[k + 1], s[k].genus, words);
  }

  /** In the walk every word may follow the one before it, agreeing with the subject. */
  lemma {:induction false} WalkSuccessor(s: seq<WordValue>, words: seq<WordValue>, maxLength: int, i: nat)
    requires Assembled(s, words, maxLength)
    requires PrefixLength(s, words) <= i < |s|
    ensures Follows(s[i - 1], s[i], s[SubjectIndex(s)].genus, words)
  {
    assert Follows(s[i - 1], s[i], s[0].genus, words);
  }

  // ----- Rendering -----

  /** The words' values as they are written: the first one with its first letter upper-cased. */
  function Surface(s: seq<WordValue>): (r: seq<string>)
    ensures |r| == |s|
  {
    seq(|s|, i requires 0 <= i < |s| => if i == 0 then CapitaliseFirst(s[0].value) else s[i].value)
  }

  /** The parts joined with single spaces. */
  function JoinWithSpaces(parts: seq<string>): string {
    if |parts| == 0 then ""
    else if |parts| == 1 then parts[0]
    else parts[0] + " " + JoinWithSpaces(parts[1..])
  }

  /** Joining one more part adds a space and that part at the end. */
  lemma {:induction false} JoinWithSpacesSnoc(parts: seq<string>, last: string)
    requires parts != []
    ensures JoinWithSpaces(parts + [last]) == JoinWithSpaces(parts) + " " + last
  {
    if |parts| > 1 {
      assert (parts + [last])[1..] == parts[1..] + [last];
      JoinWithSpacesSnoc(parts[1..], last);
    } else {
      assert (parts + [last])[1..] == [last];
    }
  }

  /** Joining one more of the parts: the first alone, every later one after a space. */
  lemma JoinPrefix(parts: seq<string>, i: nat)
    requires i < |parts|
    ensures JoinWithSpaces(parts[..i + 1]) == if i == 0 then parts[0] else JoinWithSpaces(parts[..i]) + " " + parts[i]
  {
    if i == 0 {
      assert parts[..1] == [parts[0]];
    } else {
      assert parts[..i + 1] == parts[..i] + [parts[i]];
      JoinWithSpacesSnoc(parts[..i], parts[i]);
    }
  }

  /** The written form of the i-th word: the first one with its first letter upper-cased. */
  lemma SurfaceAt(s: seq<WordValue>, i: nat)
    requires i < |s| && s[0].value != []
    ensures Surface(s)[i] == if i == 0 then [ToUpper(s[0].value[0])] + s[0].value[1..] else s[i].value
  {
  }

  /**
   * One step of joining: text holding the first i parts and, between parts, a
   * space, followed by part i and a space unless it is the last part.
   */
  lemma JoinStep(parts: seq<string>, i: nat, text: string)
    requires i < |parts|
    requires text == JoinWithSpaces(parts[..i]) + (if 0 < i < |parts| then " " else "")
    ensures (if i < |parts| - 1 then text + parts[i] + " " else text + parts[i])
         == JoinWithSpaces(parts[..i + 1]) + (if i + 1 < |parts| then " " else "")
  {
    JoinPrefix(parts, i);
    if i == 0 {
      assert text == [];
    }
  }

  /** Parts without spaces joined with n - 1 separating spaces. */
  lemma {:induction false} JoinWithSpacesCount(parts: seq<string>)
    requires parts != []
    requires forall i :: 0 <= i < |parts| ==> ' ' !in parts[i]
    ensures multiset(JoinWithSpaces(parts))[' '] == |parts| - 1
  {
    if |parts| > 1 {
      JoinWithSpacesCount(parts[1..]);
      var rest := JoinWithSpaces(parts[1..]);
      assert multiset(parts[0] + " " + rest) == multiset(parts[0]) + multiset(" ") + multiset(rest);
      assert multiset(parts[0])[' '] == 0;
    }
  }

  /** The sentence as text: "" when empty, otherwise the surface words joined with spaces and a final ".". */
  function Render(s: seq<WordValue>): string {
    if s == [] then "" else JoinWithSpaces(Surface(s)) + "."
  }

  /** A rendered sentence starts with its first word's first letter upper-cased and ends with ".". */
  lemma {:induction false} RenderShape(s: seq<WordValue>)
    requires s != [] && s[0].value != []
    ensures Render(s) != [] && Render(s)[|Render(s)| - 1] == '.'
    ensures Render(s)[0] == ToUpper(s[0].value[0])
  {
    var parts := Surface(s);
    assert parts[0] == CapitaliseFirst(s[0].value);
    if |parts| > 1 {
      assert JoinWithSpaces(parts) == parts[0] + " " + JoinWithSpaces(parts[1..]);
    }
  }

  /** When no word holds a space, a rendered sentence of n words holds exactly n - 1 spaces. */
  lemma {:induction false} RenderSpaces(s: seq<WordValue>)
    requires s != []
    requires forall i :: 0 <= i < |s| ==> ' ' !in s[i].value
    ensures multiset(Render(s))[' '] == |s| - 1
  {
    var parts := Surface(s);
    forall i | 0 <= i < |parts|
      ensures ' ' !in parts[i]
    {
      if i == 0 && s[0].value != [] {
        var c := s[0].value[0];
        assert c != ' ';
        assert ToUpper(c) != ' ';
        assert parts[0] == [ToUpper(c)] + s[0].value[1..];
      }
    }
    JoinWithSpacesCount(parts);
    assert multiset(JoinWithSpaces(parts) + ".") == multiset(JoinWithSpaces(parts)) + multiset(".");
  }

  lemma JoinThree(a: string, b: string, c: string)
    ensures JoinWithSpaces([a, b, c]) == a + " " + b + " " + c
  {
    assert [a, b, c][1..] == [b, c];
    assert [b, c][1..] == [c];
    assert JoinWithSpaces([b, c]) == b + " " + c;
    assert JoinWithSpaces([a, b, c]) == a + " " + (b + " " + c);
  }

  /** The written words of [большая, собака, лаежала]: the first one capitalised. */
  lemma SurfaceExample(adjective: WordValue, subject: WordValue, verb: WordValue)
    requires adjective.value == "большая" && subject.value == "собака" && verb.value == "лаежала"
    ensures Surface([adjective, subject, verb]) == ["Большая", "собака", "лаежала"]
  {
    assert ToUpper('б') == 'Б';
    assert adjective.value[1..] == "ольшая";
    assert CapitaliseFirst(adjective.value) == "Большая";
  }

  /** Three words with the first capitalised, separated by spaces and closed by a full stop. */
  lemma RenderExample(adjective: WordValue, subject: WordValue, verb: WordValue)
    requires adjective.value == "большая" && subject.value == "собака" && verb.value == "лаежала"
    ensures Render([adjective, subject, verb]) == "Большая собака лаежала."
  {
    SurfaceExample(adjective, subject, verb);
    JoinThree("Большая", "собака", "лаежала");
    ExampleText();
  }

  lemma ExampleText()
    ensures "Большая" + " " + "собака" + " " + "лаежала" + "." == "Большая собака лаежала."
  {
  }

  class SentenceGenerator {
    /** The lexicon; generation only reads it. */
    const words: seq<WordValue>

    constructor (words: seq<WordValue>)
      ensures this.words == words
    {
      this.words := words;
    }

    /** A random copy of a lexicon word of the given part of speech, or None when there is none. */
    method RandomWordOf(pos: PartOfSpeech) returns (r: Option<WordValue>)
      requires ValidLexicon(words)
      ensures r.None? <==> WordsByPartOfSpeech(words, pos) == []
      ensures r.Some? ==> IsCopyOf(r.value, pos, words)
    {
      var candidates := WordsByPartOfSpeech(words, pos);
      if candidates == [] {
        return None;
      }
      var i :| 0 <= i < |candidates|;
      assert candidates[i] in candidates;
      LexiconEntry(words, candidates[i]);
      r := Some(CopyWord(candidates[i]));
    }

    /** A random noun in its nominative form, or None when the lexicon has no noun. */
    method RandomNoun() returns (r: Option<WordValue>)
      requires ValidLexicon(words)
      ensures r.None? <==> WordsByPartOfSpeech(words, Noun) == []
      ensures r.Some? ==> InCase(r.value, Noun, Nominative, words)
    {
      r := RandomNounInCase(Nominative);
    }

    /** A random noun with its value replaced by its form in the given case, or None when the lexicon has no noun. */
    method RandomNounInCase(declension: Declension) returns (r: Option<WordValue>)
      requires ValidLexicon(words)
      ensures r.None? <==> WordsByPartOfSpeech(words, Noun) == []
      ensures r.Some? ==> InCase(r.value, Noun, declension, words)
    {
      var nouns := WordsByPartOfSpeech(words, Noun);
      if nouns == [] {
        return None;
      }
      var i :| 0 <= i < |nouns|;
      var noun := nouns[i];
      assert noun in nouns;
      LexiconEntry(words, noun);
      var copy := CopyWord(noun);
      r := Some(copy.(value := copy.declensionVal[declension]));
    }

    /** A random adjective of the given genus in the given case, or None when there is none. */
    method MatchingAdjective(genus: Genus, declension: Declension) returns (r: Option<WordValue>)
      requires ValidLexicon(words)
      ensures r.None? <==> WordsOfGenus(WordsByPartOfSpeech(words, Adjective), genus) == []
      ensures r.Some? ==> InCase(r.value, Adjective, declension, words) && r.value.genus == genus
    {
      var adjectives := WordsByPartOfSpeech(words, Adjective);
      var matching := WordsOfGenus(adjectives, genus);
      if matching == [] {
        return None;
      }
      var i :| 0 <= i < |matching|;
      var adjective := matching[i];
      assert adjective in matching;
      LexiconEntry(words, adjective);
      var copy := CopyWord(adjective);
      r := Some(copy.(value := copy.declensionVal[declension]));
    }

    /**
     * The opening of generateSentence: a nominative subject, an adjective of its
     * genus put in front of it on a coin toss (when one exists), and the verb
     * conjugated for the subject (when the lexicon has verbs).
     */
    method Opening() returns (sentence: seq<WordValue>)
      requires ValidLexicon(words)
      ensures sentence == [] <==> WordsByPartOfSpeech(words, Noun) == []
      ensures sentence != [] ==> |sentence| == PrefixLength(sentence, words) && Assembled(sentence, words, 0)
    {
      var subject := RandomNoun();
      if subject.None? {
        return [];
      }
      var adjective: Option<WordValue> := None;
      var withAdjective: bool := *;
      if withAdjective {
        adjective := MatchingAdjective(subject.value.genus, Nominative);
      }
      var verb := RandomWordOf(Verb);
      var conjugated: Option<WordValue> := None;
      if verb.Some? {
        LexiconEntry(words, verb.value);
        conjugated := Some(ConjugateVerb(verb.value, subject.value.genus));
        ConjugatedWitness(verb.value, subject.value.genus, words);
      }
      sentence := OpeningWords(adjective, subject.value, conjugated);
      OpeningAssembled(adjective, subject.value, conjugated, words);
    }

    /**
     * One pass of the walk: what may follow `last`, chosen at random; None ends
     * the walk. After a verb: an adverb, a preposition or an accusative noun;
     * after a preposition: a prepositional noun; after a noun: a preposition on
     * a coin toss; after an adverb: on a coin toss, a verb agreeing with
     * `agreement`; after anything else: nothing.
     */
    method NextWord(last: WordValue, agreement: Genus) returns (next: Option<WordValue>)
      requires ValidLexicon(words)
      ensures next.Some? ==> Follows(last, next.value, agreement, words)
      ensures last.partOfSpeech !in {Verb, Preposition, Noun, Adverb} ==> next.None?
      ensures last.partOfSpeech == Preposition ==> (next.None? <==> WordsByPartOfSpeech(words, Noun) == [])
      ensures last.partOfSpeech == Preposition && next.None? ==> forall i :: 0 <= i < |words| ==> words[i].partOfSpeech != Noun
      ensures last.partOfSpeech == Verb && next.None? ==>
                || WordsByPartOfSpeech(words, Adverb) == []
                || WordsByPartOfSpeech(words, Preposition) == []
                || WordsByPartOfSpeech(words, Noun) == []
    {
      next := None;
      if last.partOfSpeech == Verb {
        var choice :| 0 <= choice < 3;
        if choice == 0 {
          next := RandomWordOf(Adverb);
        } else if choice == 1 {
          next := RandomWordOf(Preposition);
        } else {
          next := RandomNounInCase(Accusative);
        }
      } else if last.partOfSpeech == Preposition {
        next := RandomNounInCase(Prepositional);
      } else if last.partOfSpeech == Noun {
        var withPreposition: bool := *;
        if withPreposition {
          next := RandomWordOf(Preposition);
        }
      } else if last.partOfSpeech == Adverb {
        var withVerb: bool := *;
        if withVerb {
          var verb := RandomWordOf(Verb);
          if verb.Some? {
            next := Some(ConjugateVerb(verb.value, agreement));
          }
        }
      }
    }

    /**
     * The walk: while the sentence is shorter than maxLength, append the word
     * NextWord picks after the last one, and stop as soon as it picks none.
     */
    method Walk(start: seq<WordValue>, maxLength: int) returns (sentence: seq<WordValue>)
      requires ValidLexicon(words) && Assembled(start, words, maxLength)
      ensures Assembled(sentence, words, maxLength)
      ensures |sentence| < maxLength ==> sentence[|sentence| - 1].partOfSpeech != Preposition
      ensures |sentence| < maxLength && sentence[|sentence| - 1].partOfSpeech == Verb ==>
                WordsByPartOfSpeech(words, Adverb) == [] || WordsByPartOfSpeech(words, Preposition) == []
    {
      sentence := start;
      while |sentence| < maxLength
        invariant Assembled(sentence, words, maxLength)
        decreases maxLength - |sentence|
      {
        var next := Step(sentence, maxLength);
        if next.None? {
          break;
        }
        sentence := sentence + [next.value];
      }
    }

    /**
     * One pass of the walk: the word NextWord picks after the last one. A word
     * it picks keeps the sentence assembled. It picks none after a preposition
     * only when the lexicon has no noun, which an assembled sentence rules out,
     * and after a verb only when it has no adverb or no preposition.
     */
    method Step(sentence: seq<WordValue>, maxLength: int) returns (next: Option<WordValue>)
      requires ValidLexicon(words) && Assembled(sentence, words, maxLength) && |sentence| < maxLength
      ensures next.Some? ==> Assembled(sentence + [next.value], words, maxLength)
      ensures next.None? ==> sentence[|sentence| - 1].partOfSpeech != Preposition
      ensures next.None? && sentence[|sentence| - 1].partOfSpeech == Verb ==>
                WordsByPartOfSpeech(words, Adverb) == [] || WordsByPartOfSpeech(words, Preposition) == []
    {
      next := NextWord(sentence[|sentence| - 1], sentence[0].genus);
      if next.None? {
        AssembledHasNoun(sentence, words, maxLength);
        var i :| 0 <= i < |words| && words[i].partOfSpeech == Noun;
        assert words[i] in WordsByPartOfSpeech(words, Noun);
      } else {
        AssembledExtend(sentence, next.value, words, maxLength);
      }
    }

    /**
     * generateSentence: the opening, then a walk that appends one word per pass
     * while the sentence is shorter than maxLength and stops at the first pass
     * that finds nothing to append.
     */
    method GenerateSentence(maxLength: int) returns (sentence: seq<WordValue>)
      requires ValidLexicon(words)
      ensures sentence == [] <==> WordsByPartOfSpeech(words, Noun) == []
      ensures sentence != [] ==> Assembled(sentence, words, maxLength)
      ensures |sentence| <= Max(maxLength, 3)
      ensures sentence != [] && |sentence| < maxLength ==> sentence[|sentence| - 1].partOfSpeech != Preposition
      ensures sentence != [] && |sentence| < maxLength && sentence[|sentence| - 1].partOfSpeech == Verb ==>
                WordsByPartOfSpeech(words, Adverb) == [] || WordsByPartOfSpeech(words, Preposition) == []
    {
      sentence := Opening();
      if sentence != [] {
        sentence := Walk(sentence, maxLength);
        AssembledLength(sentence, words, maxLength);
      }
    }

    /** sentenceToString: the words joined with single spaces, the first capitalised, then ".". */
    method SentenceToString(sentence: seq<WordValue>) returns (text: string)
      requires sentence != [] ==> sentence[0].value != []
      ensures text == Render(sentence)
    {
      if sentence == [] {
        return "";
      }
      var parts := Surface(sentence);
      var sb := "";
      for i := 0 to |sentence|
        invariant sb == JoinWithSpaces(parts[..i]) + (if 0 < i < |sentence| then " " else "")
      {
        var word := sentence[i];
        ghost var before := sb;
        if i == 0 {
          sb := sb + ([ToUpper(word.value[0])] + word.value[1..]);
        } else {
          sb := sb + word.value;
        }
        SurfaceAt(sentence, i);
        JoinStep(parts, i, before);
        if i < |sentence| - 1 {
          sb := sb + " ";
        }
      }
      assert parts[..|sentence|] == parts;
      text := sb + ".";
    }
  }
}
