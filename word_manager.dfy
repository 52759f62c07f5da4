/**
 * The paradigm builder (package wordManager): the grammatical enumerations,
 * the ordered suffix-rule tables that turn a base form into its six case
 * forms and its three tense forms, and the Word class whose constructor
 * fills its two maps by running those tables.
 *
 * The tables are written as pure functions (NounRuleOf and NounForms,
 * VerbRuleOf and VerbForms, then Declensions and Tenses, which add the
 * re-capitalisation pass); Word.GenerateDeclensions and Word.GenerateTenses
 * update the object's maps step by step and are proved to leave exactly
 * what those functions describe.
 */
module WordManager {
  import opened Text

  /** The six grammatical cases. The source spells the accusative ACCUSTIVE and names the instrumental CREATIVE. */
  datatype Declension = Nominative | Genitive | Dative | Accusative | Instrumental | Prepositional

  /** Grammatical gender; NoGenus is the source's NONE (infinitives, prepositions, adverbs). */
  datatype Genus = Masculine | Feminine | Neuter | NoGenus | Plural

  datatype PartOfSpeech = Noun | Adjective | Numeral | Pronoun | Verb | Adverb | Preposition | Union | Particle

  datatype Time = Present | Past | Future

  /** Declension.values(), in declaration order. */
  const AllCases: seq<Declension> := [Nominative, Genitive, Dative, Accusative, Instrumental, Prepositional]

  lemma CaseIsListed(d: Declension)
    ensures d in AllCases
  {
    match d
    case Nominative =>
    case Genitive =>
    case Dative =>
    case Accusative =>
    case Instrumental =>
    case Prepositional =>
  }

  /** A map from the six cases, built from one form per case. */
  function CaseForms(nom: string, gen: string, dat: string, acc: string, ins: string, pre: string): (r: map<Declension, string>)
    ensures forall d :: d in r
  {
    var r := map[Nominative := nom, Genitive := gen, Dative := dat, Accusative := acc, Instrumental := ins, Prepositional := pre];
    assert forall d :: d in r by {
      forall d: Declension ensures d in r {
        CaseIsListed(d);
      }
    }
    r
  }

  /** The branches of generateDeclensions, in the order they are tried on the lower-cased word. */
  datatype NounRule = EndsAOrYa | EndsOOrE | EndsSoftSign | EndsShortI | EndsYiOrIi | ConsonantDefault

  /** The first rule whose suffix test the lower-cased word passes. */
  function NounRuleOf(w: string): NounRule {
    if EndsWith(w, "а") || EndsWith(w, "я") then EndsAOrYa
    else if EndsWith(w, "о") || EndsWith(w, "е") then EndsOOrE
    else if EndsWith(w, "ь") then EndsSoftSign
    else if EndsWith(w, "й") then EndsShortI
    else if EndsWith(w, "ый") || EndsWith(w, "ий") then EndsYiOrIi
    else ConsonantDefault
  }

  /** The six forms a rule of the case table puts for the lower-cased word w. */
  function RuleForms(rule: NounRule, w: string, genus: Genus): (r: map<Declension, string>)
    ensures forall d :: d in r
    ensures r[Nominative] == w
  {
    var stem := DropLast(w, 1);
    match rule
    case EndsAOrYa =>
      var a := EndsWith(w, "а");
      CaseForms(w, stem + (if a then "ы" else "и"), stem + "е", stem + (if a then "у" else "ю"),
                stem + (if a then "ой" else "ей"), stem + "е")
    case EndsOOrE =>
      var o := EndsWith(w, "о");
      CaseForms(w, stem + (if o then "а" else "я"), stem + (if o then "у" else "ю"), w,
                stem + (if o then "ом" else "ем"), stem + "е")
    case EndsSoftSign =>
      if genus == Masculine then CaseForms(w, stem + "я", stem + "ю", stem + "я", stem + "ем", stem + "е")
      else CaseForms(w, stem + "и", stem + "и", w, stem + "ью", stem + "и")
    case EndsShortI =>
      CaseForms(w, stem + "я", stem + "ю", stem + "я", stem + "ем", stem + "е")
    case EndsYiOrIi =>
      var stem2 := DropLast(w, 2);
      CaseForms(w, stem2 + "ого", stem2 + "ому", stem2 + "ый", stem2 + "ым", stem2 + "ом")
    case ConsonantDefault =>
      CaseForms(w, w + "а", w + "у", w, w + "ом", w + "е")
  }

  /** The six forms generateDeclensions puts for the lower-cased word w, before re-capitalisation. */
  function NounForms(w: string, genus: Genus): (r: map<Declension, string>)
    ensures forall d :: d in r
    ensures r[Nominative] == w
  {
    RuleForms(NounRuleOf(w), w, genus)
  }

  /** The case-form re-capitalisation pass: when the base form starts upper-case, so does every non-empty form. */
  function RecaseCaseForm(value: string, form: string): string
    requires value != []
  {
    if IsUpper(value[0]) then CapitaliseFirst(form) else form
  }

  /**
   * The map generateDeclensions leaves for a non-empty base form: the base form
   * in every case for a verb, otherwise the selected rule's forms, re-capitalised.
   */
  function Declensions(value: string, genus: Genus, pos: PartOfSpeech): (r: map<Declension, string>)
    requires value != []
    ensures forall d :: d in r
  {
    if pos == Verb then CaseForms(value, value, value, value, value, value)
    else
      var forms := NounForms(Lower(value), genus);
      map d | d in forms :: RecaseCaseForm(value, forms[d])
  }

  /** The branches of generateTenses, in the order they are tried on the lower-cased verb. */
  datatype VerbRule = EndsTj | EndsTi | EndsChj | EndsNutj | EndsAtjOrYatj | EndsItj | OtherVerb

  /** The first rule whose suffix test the lower-cased verb passes. */
  function VerbRuleOf(w: string): VerbRule {
    if EndsWith(w, "ть") then EndsTj
    else if EndsWith(w, "ти") then EndsTi
    else if EndsWith(w, "чь") then EndsChj
    else if EndsWith(w, "нуть") then EndsNutj
    else if EndsWith(w, "ать") || EndsWith(w, "ять") then EndsAtjOrYatj
    else if EndsWith(w, "ить") then EndsItj
    else OtherVerb
  }

  /** The ending the -ть rule gives the past tense for the verb's own genus. */
  function TjPastEnding(genus: Genus): string {
    if genus == Masculine then "л"
    else if genus == Feminine then "ла"
    else if genus == Neuter then "ло"
    else "л"
  }

  /** The gender correction the -ать/-ять and -ить rules append to their past form. */
  function GenderCorrection(genus: Genus): string {
    if genus == Feminine then "а"
    else if genus == Neuter then "о"
    else if genus == Plural then "и"
    else ""
  }

  /** The past form of an -чь verb: four irregular verbs, otherwise stem + "г" (+ "ла" when feminine). */
  function ChjPast(w: string, genus: Genus): string {
    var feminine := genus == Feminine;
    if w == "беречь" then (if feminine then "берегла" else "берег")
    else if w == "печь" then (if feminine then "пекла" else "пек")
    else if w == "стричь" then (if feminine then "стригла" else "стриг")
    else if w == "жечь" then (if feminine then "жгла" else "жёг")
    else DropLast(w, 2) + "г" + (if feminine then "ла" else "")
  }

  /** The past form a rule of the verb table gives the lower-cased verb w, whose base form is value. */
  function PastForm(rule: VerbRule, value: string, w: string, genus: Genus): string {
    match rule
    case EndsTj => DropLast(w, 2) + TjPastEnding(genus)
    case EndsTi => DropLast(w, 2) + "л"
    case EndsChj => ChjPast(w, genus)
    case EndsNutj => DropLast(w, 4) + "нул"
    case EndsAtjOrYatj =>
      // The rule's own guard leaves ять as the only ending other than ать.
      (if TakeLast(w, 3) == "ать" then DropLast(w, 3) + "ал" else DropLast(w, 3) + "ял") + GenderCorrection(genus)
    case EndsItj => DropLast(w, 3) + "ил" + GenderCorrection(genus)
    case OtherVerb => value + " (прошедшее)"
  }

  /** The future form a rule of the verb table gives: periphrastic, the base form itself for нуть, or marked. */
  function FutureForm(rule: VerbRule, value: string): string {
    match rule
    case EndsNutj => value
    case OtherVerb => value + " (будущее)"
    case _ => "будет " + value
  }

  /** The tense forms the selected rule puts for a verb (base form value, lower-cased w), before re-capitalisation. */
  function VerbForms(value: string, w: string, genus: Genus): (r: map<Time, string>)
    ensures Present in r && Past in r && Future in r
    ensures r[Present] == value
  {
    var rule := VerbRuleOf(w);
    map[Present := value, Past := PastForm(rule, value, w, genus), Future := FutureForm(rule, value)]
  }

  /** The tense-form re-capitalisation pass: as for cases, except that forms starting "будет" are kept. */
  function RecaseTenseForm(value: string, form: string): string
    requires value != []
  {
    if IsUpper(value[0]) && !StartsWith(form, "будет") then CapitaliseFirst(form) else form
  }

  /**
   * The map generateTenses leaves for a non-empty base form: the base form in
   * every tense for a non-verb, otherwise the selected rule's forms, re-capitalised.
   */
  function Tenses(value: string, genus: Genus, pos: PartOfSpeech): (r: map<Time, string>)
    requires value != []
    ensures Present in r && Past in r && Future in r
  {
    if pos != Verb then map[Present := value, Past := value, Future := value]
    else
      var forms := VerbForms(value, Lower(value), genus);
      map t | t in forms :: RecaseTenseForm(value, forms[t])
  }

  /** The contents of a Word object at one moment. */
  datatype WordValue = WordValue(
    value: string,
    genus: Genus,
    partOfSpeech: PartOfSpeech,
    declensionVal: map<Declension, string>,
    timesVal: map<Time, string>)

  /** The contents of the Word that `new Word(value, genus, partOfSpeech)` builds. */
  function NewWord(value: string, genus: Genus, partOfSpeech: PartOfSpeech): (w: WordValue)
    ensures w.value == value && w.genus == genus && w.partOfSpeech == partOfSpeech
    ensures value == [] ==> w.declensionVal == map[] && w.timesVal == map[]
  {
    if value == [] then WordValue(value, genus, partOfSpeech, map[], map[])
    else WordValue(value, genus, partOfSpeech, Declensions(value, genus, partOfSpeech), Tenses(value, genus, partOfSpeech))
  }

  /** A word exactly as its constructor left it, with a non-empty base form. */
  predicate ValidEntry(w: WordValue) {
    w.value != [] && w == NewWord(w.value, w.genus, w.partOfSpeech)
  }

  class Word {
    var value: string
    var timesVal: map<Time, string>
    var genus: Genus
    var partOfSpeech: PartOfSpeech
    var declensionVal: map<Declension, string>

    constructor (value: string, genus: Genus, partOfSpeech: PartOfSpeech)
      ensures Snapshot() == NewWord(value, genus, partOfSpeech)
    {
      this.value := value;
      this.genus := genus;
      this.partOfSpeech := partOfSpeech;
      declensionVal := map[];
      timesVal := map[];
      new;
      GenerateDeclensions();
      GenerateTenses();
    }

    function Snapshot(): WordValue
      reads this
    {
      WordValue(value, genus, partOfSpeech, declensionVal, timesVal)
    }

    /**
     * Fills declensionVal. An empty base form leaves the map as it was; otherwise
     * the map is cleared and refilled, so the result depends only on the value,
     * genus and part of speech, and a second call leaves the same map.
     */
    method GenerateDeclensions()
      modifies this`declensionVal
      ensures value == [] ==> declensionVal == old(declensionVal)
      ensures value != [] ==> declensionVal == Declensions(value, genus, partOfSpeech)
    {
      if value == [] {
        return;
      }
      declensionVal := map[];
      if partOfSpeech == Verb {
        for i := 0 to |AllCases|
          invariant forall d :: d in declensionVal <==> d in AllCases[..i]
          invariant forall d :: d in declensionVal ==> declensionVal[d] == value
        {
          declensionVal := declensionVal[AllCases[i] := value];
        }
        assert AllCases[..|AllCases|] == AllCases;
        return;
      }
      var forms := NounForms(Lower(value), genus);
      declensionVal := forms;
      if IsUpper(value[0]) {
        var pending := declensionVal.Keys;
        while pending != {}
          invariant declensionVal.Keys == forms.Keys
          invariant forall d :: d in forms ==>
            declensionVal[d] == if d in pending then forms[d] else CapitaliseFirst(forms[d])
          decreases pending
        {
          var d :| d in pending;
          var val := declensionVal[d];
          if val != [] {
            declensionVal := declensionVal[d := [ToUpper(val[0])] + val[1..]];
          }
          pending := pending - {d};
        }
      }
    }

    /**
     * Fills timesVal. An empty base form leaves the map as it was; otherwise the
     * map is cleared and refilled from the value, genus and part of speech alone.
     */
    method GenerateTenses()
      modifies this`timesVal
      ensures value == [] ==> timesVal == old(timesVal)
      ensures value != [] ==> timesVal == Tenses(value, genus, partOfSpeech)
    {
      if value == [] {
        return;
      }
      timesVal := map[];
      if partOfSpeech != Verb {
        timesVal := timesVal[Present := value];
        timesVal := timesVal[Past := value];
        timesVal := timesVal[Future := value];
        return;
      }
      var forms := VerbForms(value, Lower(value), genus);
      timesVal := forms;
      if IsUpper(value[0]) {
        var pending := timesVal.Keys;
        while pending != {}
          invariant timesVal.Keys == forms.Keys
          invariant forall t :: t in forms ==>
            timesVal[t] == if t in pending then forms[t] else RecaseTenseForm(value, forms[t])
          decreases pending
        {
          var t :| t in pending;
          var val := timesVal[t];
          if val != [] && !StartsWith(val, "будет") {
            timesVal := timesVal[t := [ToUpper(val[0])] + val[1..]];
          }
          pending := pending - {t};
        }
      }
    }
  }
}
