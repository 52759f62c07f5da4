# SimpleSentenceGenerator in Dafny

This project models the two components of SimpleSentenceGenerator, a small Java
program that produces random Russian sentences, and proves properties of them.

- **The paradigm builder** (`Word`). A word is stored with its base form, genus
  and part of speech. Its constructor fills two maps:
  - `declensionVal`, the six case forms, picked by an ordered table of suffix
    rules in which the first match wins;
  - `timesVal`, the present, past and future forms, picked by a second ordered
    suffix table for verbs. Every other part of speech copies its base form into
    all three tenses.

  When the base form starts with a capital, a final pass capitalises the forms.
  In the tense map, forms starting with "будет" are skipped.
- **The sentence assembler** (`SentenceGenerator`). It builds an opening of up to
  three words: an optional adjective, a nominative subject, and a verb conjugated
  for the subject's genus. It then runs a walk over parts of speech until the
  sentence reaches `maxLength` or a step finds nothing to add. Finally
  `sentenceToString` renders the sentence as text.

Files:
- `text.dfy` (module `Text`): a case table for Latin and Cyrillic letters, suffix
  and prefix tests, the total substring helpers the rule tables use, and
  replace-all for a one-character target.
- `word_manager.dfy` (module `WordManager`):
  - the enumerations;
  - the rule tables as specification functions (`Declensions`, `Tenses`);
  - the class `Word`, whose methods clear and refill the map fields and are
    proved equal to those functions.
- `word_properties.dfy` (module `WordProperties`):
  - which rule each suffix selects, including the branches the first-match order
    makes unreachable;
  - the forms each reachable rule gives;
  - what re-capitalisation does;
  - worked paradigms of машина, стол, красный and читать from the program's
    vocabulary, plus Москва, added because no vocabulary word starts with a
    capital.
- `sentence_generator.dfy` (module `GenerationManager`):
  - the lexicon filters, `copyWord` and `conjugateVerb`;
  - the class `SentenceGenerator`, whose methods model the samplers, the
    generation loop and rendering;
  - the shape every generated sentence has (`Assembled`), with lemmas on
    agreement, case and rendering.

`java.util.Random` becomes nondeterministic choice (`:|` and `*`), so every
property holds for every sequence of random outcomes. The generator reads
`WordValue` snapshots of the lexicon's `Word` objects. The lexicon is a `const`
sequence of values, so by this abstraction generation cannot change it. The
source gets the same effect by copying each word before it overwrites `value`
(SentenceGenerator.java:122-123, 134-135 and 151-152); that copying discipline is
not itself modelled or proved.

Some naming differs from the source. The source's enum constants `ACCUSTIVE` and
`CREATIVE` are `Accusative` and `Instrumental` here, and `Genus.NONE` is `NoGenus`.

Two facts about the walk shape the model:
- a noun after a preposition always takes the prepositional case, whatever the
  preposition (SentenceGenerator.java:85-88);
- the walk stops only when the sentence reaches `maxLength` or when a step adds
  nothing (SentenceGenerator.java:69 and 104-109).

## Model

| member | source | states |
|---|---|---|
| WordManager.NounForms | src/jsentance/project/wordManager/Word.java:51-120 | The case table sets all six cases, and the nominative is the lower-cased word itself |
| WordManager.Declensions | src/jsentance/project/wordManager/Word.java:39-131 | For a non-empty base form, every part of speech gets a form for each of the six cases |
| WordManager.VerbForms | src/jsentance/project/wordManager/Word.java:157-270 | Every branch of the verb table sets present, past and future, and the present is the base form |
| WordManager.Tenses | src/jsentance/project/wordManager/Word.java:147-281 | For a non-empty base form, every part of speech gets all three tenses |
| WordManager.NewWord | src/jsentance/project/wordManager/Word.java:17-25 | A new word keeps its base form, genus and part of speech; an empty base form leaves both maps empty |
| WordManager.Word.constructor | src/jsentance/project/wordManager/Word.java:17-25 | The constructed object's state is exactly `NewWord` of its arguments |
| WordManager.Word.GenerateDeclensions | src/jsentance/project/wordManager/Word.java:30-132 | Only `declensionVal` changes. An empty base form leaves it untouched; otherwise the map is cleared and becomes `Declensions` of the unchanged fields, so a second call gives the same map |
| WordManager.Word.GenerateTenses | src/jsentance/project/wordManager/Word.java:138-282 | Only `timesVal` changes. An empty base form leaves it untouched; otherwise it becomes `Tenses` of the unchanged fields, with the re-capitalisation loop skipping "будет" forms |
| WordProperties.AdjectiveRuleUnreachable | src/jsentance/project/wordManager/Word.java:92-111 | The ый/ий rule is never selected, because й is tested first |
| WordProperties.AdjectiveTakesShortIRule | src/jsentance/project/wordManager/Word.java:92-101 | A word ending in ый or ий is declined by the й rule, with a one-letter stem: я, ю, я, ем, е |
| WordProperties.TjRuleTakes | src/jsentance/project/wordManager/Word.java:158-180 | Any verb ending in something followed by ть is handled by the ть rule |
| WordProperties.RefinedVerbRulesUnreachable | src/jsentance/project/wordManager/Word.java:210-264 | The нуть, ать/ять and ить rules are never selected, because ть is tested first |
| WordProperties.VerbCasesAreBaseForm | src/jsentance/project/wordManager/Word.java:39-44 | Every case of a verb is its unchanged base form |
| WordProperties.AFinalForms | src/jsentance/project/wordManager/Word.java:51-59 | An а-final word gives stem+ы, е, у, ой, е, with the word itself as nominative |
| WordProperties.YaFinalForms | src/jsentance/project/wordManager/Word.java:51-59 | A я-final word gives stem+и, е, ю, ей, е |
| WordProperties.OEFinalForms | src/jsentance/project/wordManager/Word.java:61-69 | An о-final word gives а, у, ом and an е-final word gives я, ю, ем; both keep the nominative as accusative and take е in the prepositional |
| WordProperties.SoftSignForms | src/jsentance/project/wordManager/Word.java:71-91 | The ь rule depends only on genus: masculine gives я, ю, я, ем, е; any other genus gives и, и, nominative, ью, и |
| WordProperties.ConsonantForms | src/jsentance/project/wordManager/Word.java:112-120 | Any other last letter appends а, у, ом, е to the whole word, and the accusative equals the nominative |
| WordProperties.RuleFormsStart | src/jsentance/project/wordManager/Word.java:51-120 | Whichever rule of the case table is applied, every form it gives starts like the word: same first letter, or a lower-case letter |
| WordProperties.NonVerbTensesAreBaseForm | src/jsentance/project/wordManager/Word.java:147-152 | A non-verb has its unchanged base form in all three tenses, with no re-capitalisation |
| WordProperties.RecaseKeepsBaseForm | src/jsentance/project/wordManager/Word.java:272-281 | Re-capitalising the base form itself leaves it unchanged |
| WordProperties.PeriphrasticFutureKept | src/jsentance/project/wordManager/Word.java:272-281 | A "будет …" future is never re-capitalised |
| WordProperties.TjVerbTenses | src/jsentance/project/wordManager/Word.java:158-180 | A ть verb has present = base form, future = "будет " + base form, and past = stem + л / ла / ло / л by the verb's genus |
| WordProperties.TiVerbTenses | src/jsentance/project/wordManager/Word.java:181-188 | A ти verb has past stem + л, whatever the genus |
| WordProperties.ChjVerbTenses | src/jsentance/project/wordManager/Word.java:189-209 | A чь verb uses the four irregular pasts, otherwise stem + г (+ ла when feminine) |
| WordProperties.OtherVerbTenses | src/jsentance/project/wordManager/Word.java:265-270 | Any other verb gets " (прошедшее)" and " (будущее)" appended to the base form |
| WordProperties.VerbTensesByRule | src/jsentance/project/wordManager/Word.java:147-281 | A verb's tense map is the base form as present, plus the selected rule's past and future, each re-capitalised unless it starts with "будет" |
| WordProperties.PresentIsBaseForm | src/jsentance/project/wordManager/Word.java:147-270 | Every word's present tense is its base form |
| WordProperties.NounFormsStart | src/jsentance/project/wordManager/Word.java:51-120 | Every case form starts like the word: same first letter, or a lower-case letter |
| WordProperties.DeclensionCapitalisation | src/jsentance/project/wordManager/Word.java:122-131 | A case form starts upper-case exactly when the base form does |
| WordProperties.NominativeKeepsCapital | src/jsentance/project/wordManager/Word.java:47-131 | A non-verb's nominative is its lower-cased base form, with the base form's capital restored |
| WordProperties.VerbFormsStart | src/jsentance/project/wordManager/Word.java:154-270 | Every tense form starts like the lower-cased verb, or with the base form's own first letter |
| WordProperties.PastFormStart | src/jsentance/project/wordManager/Word.java:157-270 | The past form of every reachable verb rule starts like the lower-cased verb, or with the base form's own first letter |
| WordProperties.TenseCapitalisation | src/jsentance/project/wordManager/Word.java:272-281 | A tense form not starting with "будет" starts upper-case exactly when the base form does |
| WordProperties.RecaseStartsLike | src/jsentance/project/wordManager/Word.java:122-131 | A case form that starts like the lower-cased word, after the re-capitalisation pass, starts upper-case exactly when the base form does |
| WordProperties.LowerCaseDeclensions | src/jsentance/project/wordManager/Word.java:122-131 | With a lower-case base form, the re-capitalisation pass changes nothing |
| WordProperties.MashinaParadigm | src/jsentance/project/wordManager/Word.java:51-59 | The noun машина gives машины, машине, машину, машиной, машине |
| WordProperties.StolParadigm | src/jsentance/project/wordManager/Word.java:112-120 | стол gives стола, столу, стол, столом, столе |
| WordProperties.KrasnyParadigm | src/jsentance/project/wordManager/Word.java:92-101 | красный gets the genitive красныя, from the й rule |
| WordProperties.MoskvaParadigm | src/jsentance/project/wordManager/Word.java:51-131 | Москва keeps its capital: genitive Москвы |
| WordProperties.ChitatTenses | src/jsentance/project/wordManager/Word.java:158-180 | читать has past читал (no genus) or читала (feminine), and future "будет читать" |
| GenerationManager.WordsByPartOfSpeech | src/jsentance/project/generationManager/SentenceGenerator.java:36-40 | The result holds exactly the lexicon words of that part of speech and is no longer than the lexicon |
| GenerationManager.WordsByPartOfSpeechConcat | src/jsentance/project/generationManager/SentenceGenerator.java:36-40 | The filter distributes over concatenation, so it keeps the lexicon's order |
| GenerationManager.WordsOfGenus | src/jsentance/project/generationManager/SentenceGenerator.java:144-146 | The result holds exactly the words of that genus |
| GenerationManager.CopyWord | src/jsentance/project/generationManager/SentenceGenerator.java:26-31 | The copy has the original's value, genus and part of speech, and every entry of its maps; a word as its constructor built it is copied unchanged |
| GenerationManager.ConjugateVerb | src/jsentance/project/generationManager/SentenceGenerator.java:186-201 | The copy keeps the verb's genus, part of speech and maps; for a masculine subject its value is the past form, for any other subject the past form with every л replaced by ла (feminine), ло (neuter) or ли (otherwise) |
| Text.ReplaceEverySingle | src/jsentance/project/generationManager/SentenceGenerator.java:192-197 | String.replace on one character: the replacement when it is the target, the character itself otherwise |
| Text.ReplaceEveryConcat | src/jsentance/project/generationManager/SentenceGenerator.java:192-197 | String.replace works on each part of a concatenation separately; with the one-character case this pins it down as replace-all |
| Text.ReplaceEveryAbsent | src/jsentance/project/generationManager/SentenceGenerator.java:192-197 | A string without the target character is returned unchanged |
| GenerationManager.AgreePast | src/jsentance/project/generationManager/SentenceGenerator.java:188-198 | The agreement step changes only the word's value |
| GenerationManager.ConjugatedWitness | src/jsentance/project/generationManager/SentenceGenerator.java:186-201 | Conjugating a lexicon verb that has a past form gives a verb that agrees in the sense of the sentence shape, because a lexicon verb is its own copy |
| GenerationManager.LexiconEntry | src/jsentance/project/generationManager/SentenceGenerator.java:26-31 | A lexicon entry as its constructor built it is its own copy, has all six cases and has a past form |
| GenerationManager.TjVerbPast | src/jsentance/project/generationManager/SentenceGenerator.java:187-188 | A lower-case ть verb from the lexicon carries the past form stem + л / ла / ло / л |
| GenerationManager.ConjugateTjVerb | src/jsentance/project/generationManager/SentenceGenerator.java:186-201 | For a lexicon ть verb whose base form starts lower-case, whose own genus is neither feminine nor neuter (so its past form is stem + л) and whose stem has no л, agreement gives stem + л / ла / ло / ли by the subject's genus |
| GenerationManager.ChitatAgreement | src/jsentance/project/generationManager/SentenceGenerator.java:186-201 | читать agrees as читал, читала and читали |
| GenerationManager.LezhatAgreement | src/jsentance/project/generationManager/SentenceGenerator.java:192-193 | Replace-all also hits the stem's л: лежать gives лаежала for a feminine subject |
| GenerationManager.ReplaceInLezhal | src/jsentance/project/generationManager/SentenceGenerator.java:192-193 | Replacing every л of лежал by ла gives лаежала |
| GenerationManager.AssembledExtend | src/jsentance/project/generationManager/SentenceGenerator.java:69-110 | Appending an allowed successor while below `maxLength` keeps the sentence's shape |
| GenerationManager.OpeningAssembled | src/jsentance/project/generationManager/SentenceGenerator.java:45-66 | A nominative subject, optionally preceded by a nominative adjective of its genus, and followed by an agreeing verb exactly when the lexicon has a verb, has the shape of a generated sentence |
| GenerationManager.VerbsAgreeWithSubject | src/jsentance/project/generationManager/SentenceGenerator.java:62-101 | Every verb in a generated sentence is a lexicon verb conjugated for the subject's genus |
| GenerationManager.Successors | src/jsentance/project/generationManager/SentenceGenerator.java:74-103 | After a verb comes an adverb, a preposition or an accusative noun; after a preposition, a prepositional noun; after a non-subject noun, a preposition; after an adverb, an agreeing verb. Only index 0 may be an adjective |
| GenerationManager.AssembledHasNoun | src/jsentance/project/generationManager/SentenceGenerator.java:49-52 | A sentence of the generated shape has a nominative subject, so some lexicon word is a noun |
| GenerationManager.AssembledLength | src/jsentance/project/generationManager/SentenceGenerator.java:45-69 | A sentence of the generated shape has at most max(maxLength, 3) words: the opening has at most three, and the walk appends only below maxLength |
| GenerationManager.VerbAfterSubject | src/jsentance/project/generationManager/SentenceGenerator.java:51-66 | When the opening has a verb, it comes right after the noun subject |
| GenerationManager.PrefixSuccessor | src/jsentance/project/generationManager/SentenceGenerator.java:45-66 | Inside the opening, the subject follows an adjective and the verb follows the subject |
| GenerationManager.WalkSuccessor | src/jsentance/project/generationManager/SentenceGenerator.java:69-110 | After the opening, every word is an allowed successor of the word before it, agreeing with the subject's genus |
| GenerationManager.JoinWithSpacesSnoc | src/jsentance/project/generationManager/SentenceGenerator.java:211-224 | Joining one more word appends a space and that word |
| GenerationManager.JoinStep | src/jsentance/project/generationManager/SentenceGenerator.java:211-224 | One pass of the loop: the text so far plus the next word and, unless it is the last, a space, is the join of one more word plus the separator |
| GenerationManager.SurfaceAt | src/jsentance/project/generationManager/SentenceGenerator.java:214-219 | The i-th written word: the first with its first letter upper-cased, every later one unchanged |
| GenerationManager.JoinWithSpacesCount | src/jsentance/project/generationManager/SentenceGenerator.java:211-224 | n words without spaces are joined with exactly n - 1 spaces |
| GenerationManager.RenderShape | src/jsentance/project/generationManager/SentenceGenerator.java:206-228 | A rendered sentence starts with the first word's capitalised first letter and ends with "." |
| GenerationManager.RenderSpaces | src/jsentance/project/generationManager/SentenceGenerator.java:211-224 | A rendered sentence of n space-free words holds exactly n - 1 spaces |
| GenerationManager.SurfaceExample | src/jsentance/project/generationManager/SentenceGenerator.java:214-219 | Only the first word is capitalised: Большая, собака, лаежала |
| GenerationManager.RenderExample | src/jsentance/project/generationManager/SentenceGenerator.java:206-228 | [большая, собака, лаежала] renders as "Большая собака лаежала." |
| GenerationManager.SentenceGenerator.constructor | src/jsentance/project/generationManager/SentenceGenerator.java:18-21 | The generator holds the given lexicon |
| GenerationManager.SentenceGenerator.RandomWordOf | src/jsentance/project/generationManager/SentenceGenerator.java:159-181 | The verb, preposition and adverb samplers return None exactly when the filtered list is empty; otherwise they return a lexicon word of that part of speech |
| GenerationManager.SentenceGenerator.RandomNoun | src/jsentance/project/generationManager/SentenceGenerator.java:118-125 | Returns None exactly when there is no noun; otherwise a lexicon noun carrying its nominative form |
| GenerationManager.SentenceGenerator.RandomNounInCase | src/jsentance/project/generationManager/SentenceGenerator.java:130-137 | Returns None exactly when there is no noun; otherwise a lexicon noun carrying its form in the requested case |
| GenerationManager.SentenceGenerator.MatchingAdjective | src/jsentance/project/generationManager/SentenceGenerator.java:142-154 | Returns None exactly when no adjective has that genus; otherwise an adjective of that genus carrying its form in the requested case |
| GenerationManager.SentenceGenerator.Opening | src/jsentance/project/generationManager/SentenceGenerator.java:45-66 | Empty exactly when there is no noun. Otherwise: the nominative subject, preceded by a nominative adjective of its genus if one was added, then an agreeing verb exactly when the lexicon has a verb |
| GenerationManager.SentenceGenerator.NextWord | src/jsentance/project/generationManager/SentenceGenerator.java:70-103 | The word chosen after `last` is an allowed successor; after a preposition nothing is chosen exactly when the lexicon has no noun; after a verb nothing is chosen only when the lexicon lacks adverbs, prepositions or nouns; after an adjective, nothing is chosen |
| GenerationManager.SentenceGenerator.GenerateSentence | src/jsentance/project/generationManager/SentenceGenerator.java:45-113 | Empty exactly when the lexicon has no noun, and at most max(maxLength, 3) words. Otherwise the opening is followed by a chain of allowed successors, the walk only grows the sentence below maxLength, and a sentence shorter than maxLength never ends in a preposition, and ends in a verb only when the lexicon has no adverb or no preposition |
| GenerationManager.SentenceGenerator.Walk | src/jsentance/project/generationManager/SentenceGenerator.java:69-110 | From a sentence of the generated shape, the walk keeps that shape, and when it stops below maxLength the last word is not a preposition, and is a verb only when the lexicon has no adverb or no preposition |
| GenerationManager.SentenceGenerator.Step | src/jsentance/project/generationManager/SentenceGenerator.java:70-109 | One pass of the walk: a word it picks keeps the sentence's shape, and it picks none after a preposition only if no lexicon word is a noun, which a sentence of that shape rules out; after a verb it picks none only if the lexicon has no adverb or no preposition |
| GenerationManager.SentenceGenerator.SentenceToString | src/jsentance/project/generationManager/SentenceGenerator.java:206-228 | The text is "" for no words; otherwise the words joined by single spaces, the first capitalised, and a final "." |

## Left out

- Random choice: `java.util.Random` and its probabilities (the 50% coin tosses and the three-way choice after a verb) are replaced by nondeterministic choice. The pseudo-random sequence is not modelled.
- Case mapping: `toLowerCase`, `toUpperCase` and `isUpperCase` use a table covering Latin A–Z and the Cyrillic block U+0400–U+045F. Every other character counts as caseless, and full Unicode case mapping is not modelled.
- Entry point: the program's `main` (JSentance.java), which prints five sentences, is not modelled. Words from its vocabulary serve as worked examples, with Москва added to show a capital kept.
- Null values: `null` strings and `null` map lookups are not modelled. Dafny strings cannot be null, so the source's `value == null` test is covered by the empty-string test.
- Object identity: the lexicon's `Word` objects and their copies are values (`WordValue`). Aliasing between the lexicon and a sentence is not modelled; `copyWord` creates fresh objects in the source anyway.
- Map iteration order: the `HashMap` order in the re-capitalisation loops is not modelled. The Dafny loop rewrites each key once, in an unspecified order, and each key is rewritten independently.
- GenerationManager.SentenceGenerator.RandomWordOf: the samplers require `ValidLexicon`, meaning every entry has a non-empty base form and is exactly as its constructor built it. The same requirement is on the other samplers and on `GenerateSentence`. An entry with an empty base form has empty maps in the source, and what happens next depends on where the word lands:
  - a preposition or an adverb is copied with its empty value and never fails;
  - a noun or an adjective gets the value `null`; `sentenceToString` appends it as the text "null" when it is not the first word (SentenceGenerator.java:218) and throws at `charAt(0)` when it is (line 215);
  - a verb's past form is `null`, which throws in `replace` for a subject that is not masculine (lines 193-197) and becomes a `null` value for a masculine one.

  The model has no `null`, so it leaves such entries out.
- The ать/ять past: the source has an else-if chain with no final branch, which would leave the past unset. The rule's own guard means the word ends in ать or ять, so the model takes ял whenever the ending is not ать. The source's null check on the past form is left out for the same reason.
- GenerationManager.ConjugateVerb: requires that the verb's copy has a past form. For a verb with an empty base form, the source would store or dereference null.
- GenerationManager.SentenceGenerator.SentenceToString: requires a non-empty first word when the sentence is non-empty. The source's `charAt(0)` would throw on an empty one.
