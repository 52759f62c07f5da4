/**
 * What the paradigm builder promises: which rule a suffix selects (and the
 * rules the ordering makes unreachable), the forms each reachable rule gives,
 * and what the re-capitalisation passes do to the first letter.
 */
module WordProperties {
  import opened Text
  import opened WordManager

  /** A suffix of one character is a test on the last character. */
  lemma EndsWithLast(w: string, c: char)
    ensures EndsWith(w, [c]) <==> w != [] && w[|w| - 1] == c
  {
  }

  // ----- First match wins -----

  /**
   * The ый/ий rule can never be selected: every word that ends with ый or ий
   * ends with й, and the й rule is tried first.
   */
  lemma {:induction false} AdjectiveRuleUnreachable(w: string)
    ensures NounRuleOf(w) != EndsYiOrIi
  {
    if EndsWith(w, "ый") {
      assert "ый" == "ы" + "й";
      EndsWithTail(w, "ы", "й");
    }
    if EndsWith(w, "ий") {
      assert "ий" == "и" + "й";
      EndsWithTail(w, "и", "й");
    }
  }

  /** A word ending in ый or ий is declined by the й rule, whose stem drops only the last letter. */
  lemma {:induction false} AdjectiveTakesShortIRule(w: string, genus: Genus)
    requires EndsWith(w, "ый") || EndsWith(w, "ий")
    ensures NounRuleOf(w) == EndsShortI
    ensures NounForms(w, genus) == CaseForms(w, DropLast(w, 1) + "я", DropLast(w, 1) + "ю",
                                             DropLast(w, 1) + "я", DropLast(w, 1) + "ем", DropLast(w, 1) + "е")
  {
    assert w[|w| - 1] == 'й';
    EndsWithLast(w, 'а');
    EndsWithLast(w, 'я');
    EndsWithLast(w, 'о');
    EndsWithLast(w, 'е');
    EndsWithLast(w, 'ь');
    EndsWithLast(w, 'й');
  }

  /** A verb ending with `front` + ть is taken by the ть rule. */
  lemma {:induction false} TjRuleTakes(w: string, front: string)
    requires EndsWith(w, front + "ть")
    ensures VerbRuleOf(w) == EndsTj
  {
    EndsWithTail(w, front, "ть");
  }

  /**
   * The нуть, ать/ять and ить rules can never be selected: every such verb
   * ends with ть, and the ть rule is tried first.
   */
  lemma {:induction false} RefinedVerbRulesUnreachable(w: string)
    ensures VerbRuleOf(w) != EndsNutj
    ensures VerbRuleOf(w) != EndsAtjOrYatj
    ensures VerbRuleOf(w) != EndsItj
  {
    if EndsWith(w, "нуть") {
      assert "нуть" == "ну" + "ть";
      TjRuleTakes(w, "ну");
    } else if EndsWith(w, "ать") {
      assert "ать" == "а" + "ть";
      TjRuleTakes(w, "а");
    } else if EndsWith(w, "ять") {
      assert "ять" == "я" + "ть";
      TjRuleTakes(w, "я");
    } else if EndsWith(w, "ить") {
      assert "ить" == "и" + "ть";
      TjRuleTakes(w, "и");
    }
  }

  // ----- The declension table -----

  /** A verb keeps its base form in every case, with no re-capitalisation. */
  lemma VerbCasesAreBaseForm(value: string, genus: Genus, d: Declension)
    requires value != []
    ensures Declensions(value, genus, Verb)[d] == value
  {
  }

  /** An а-final word: stem = word minus its last letter; ы, е, у, ой, е. */
  lemma AFinalForms(w: string, genus: Genus)
    requires EndsWith(w, "а")
    ensures NounForms(w, genus) == CaseForms(w, DropLast(w, 1) + "ы", DropLast(w, 1) + "е",
                                             DropLast(w, 1) + "у", DropLast(w, 1) + "ой", DropLast(w, 1) + "е")
  {
  }

  /** A я-final word: и, е, ю, ей, е. */
  lemma {:induction false} YaFinalForms(w: string, genus: Genus)
    requires EndsWith(w, "я")
    ensures NounForms(w, genus) == CaseForms(w, DropLast(w, 1) + "и", DropLast(w, 1) + "е",
                                             DropLast(w, 1) + "ю", DropLast(w, 1) + "ей", DropLast(w, 1) + "е")
  {
    EndsWithLast(w, 'а');
    EndsWithLast(w, 'я');
  }

  /** An о-final or е-final word keeps its nominative as accusative. */
  lemma {:induction false} OEFinalForms(w: string, genus: Genus)
    requires EndsWith(w, "о") || EndsWith(w, "е")
    ensures NounForms(w, genus)[Accusative] == w
    ensures NounForms(w, genus)[Prepositional] == DropLast(w, 1) + "е"
    ensures EndsWith(w, "о") ==> NounForms(w, genus) == CaseForms(w, DropLast(w, 1) + "а", DropLast(w, 1) + "у",
                                                               w, DropLast(w, 1) + "ом", DropLast(w, 1) + "е")
    ensures EndsWith(w, "е") ==> NounForms(w, genus) == CaseForms(w, DropLast(w, 1) + "я", DropLast(w, 1) + "ю",
                                                               w, DropLast(w, 1) + "ем", DropLast(w, 1) + "е")
  {
    EndsWithLast(w, 'а');
    EndsWithLast(w, 'я');
    EndsWithLast(w, 'о');
    EndsWithLast(w, 'е');
  }

  /** The ь rule depends only on the genus: masculine я, ю, я, ем, е; any other и, и, nominative, ью, и. */
  lemma {:induction false} SoftSignForms(w: string, genus: Genus)
    requires EndsWith(w, "ь")
    ensures genus == Masculine ==>
      NounForms(w, genus) == CaseForms(w, DropLast(w, 1) + "я", DropLast(w, 1) + "ю",
                                       DropLast(w, 1) + "я", DropLast(w, 1) + "ем", DropLast(w, 1) + "е")
    ensures genus != Masculine ==>
      NounForms(w, genus) == CaseForms(w, DropLast(w, 1) + "и", DropLast(w, 1) + "и",
                                       w, DropLast(w, 1) + "ью", DropLast(w, 1) + "и")
  {
    EndsWithLast(w, 'а');
    EndsWithLast(w, 'я');
    EndsWithLast(w, 'о');
    EndsWithLast(w, 'е');
    EndsWithLast(w, 'ь');
  }

  /** Any other last letter: а, у, ом, е appended to the whole word, accusative = nominative. */
  lemma {:induction false} ConsonantForms(w: string, genus: Genus)
    requires w != [] && w[|w| - 1] !in "аяоеьй"
    ensures NounForms(w, genus) == CaseForms(w, w + "а", w + "у", w, w + "ом", w + "е")
  {
    EndsWithLast(w, 'а');
    EndsWithLast(w, 'я');
    EndsWithLast(w, 'о');
    EndsWithLast(w, 'е');
    EndsWithLast(w, 'ь');
    EndsWithLast(w, 'й');
    AdjectiveRuleUnreachable(w);
  }

  // ----- The tense table -----

  /** A non-verb keeps its base form in every tense, with no re-capitalisation. */
  lemma NonVerbTensesAreBaseForm(value: string, genus: Genus, pos: PartOfSpeech)
    requires value != [] && pos != Verb
    ensures Tenses(value, genus, pos) == map[Present := value, Past := value, Future := value]
  {
  }

  /** Re-capitalising the base form itself changes nothing. */
  lemma RecaseKeepsBaseForm(value: string)
    requires value != []
    ensures RecaseTenseForm(value, value) == value
    ensures RecaseCaseForm(value, value) == value
  {
  }

  /** The future of a ть, ти or чь verb starts with будет and is never re-capitalised. */
  lemma PeriphrasticFutureKept(value: string)
    requires value != []
    ensures RecaseTenseForm(value, "будет " + value) == "будет " + value
  {
    assert ("будет " + value)[..|"будет"|] == "будет";
  }

  /**
   * A ть verb (which includes every ать, ять, ить and нуть verb): present is the
   * base form, future "будет " + the base form, past stem + л / ла / ло / л by the verb's genus.
   */
  lemma {:induction false} TjVerbTenses(value: string, genus: Genus)
    requires value != [] && EndsWith(Lower(value), "ть")
    ensures Tenses(value, genus, Verb) == map[Present := value,
                                             Past := RecaseTenseForm(value, DropLast(Lower(value), 2) + TjPastEnding(genus)),
                                             Future := "будет " + value]
  {
    RecaseKeepsBaseForm(value);
    PeriphrasticFutureKept(value);
  }

  /** A verb's tenses are its rule's past and future, re-capitalised, beside the base form. */
  lemma VerbTensesByRule(value: string, genus: Genus)
    requires value != []
    ensures var w := Lower(value);
            var rule := VerbRuleOf(w);
            Tenses(value, genus, Verb)
            == map[Present := value,
                   Past := RecaseTenseForm(value, PastForm(rule, value, w, genus)),
                   Future := RecaseTenseForm(value, FutureForm(rule, value))]
  {
    RecaseKeepsBaseForm(value);
  }

  /** A ти verb: past stem + л whatever the genus. */
  lemma {:induction false} TiVerbTenses(value: string, genus: Genus)
    requires value != [] && EndsWith(Lower(value), "ти")
    ensures Tenses(value, genus, Verb) == map[Present := value,
                                             Past := RecaseTenseForm(value, DropLast(Lower(value), 2) + "л"),
                                             Future := "будет " + value]
  {
    var w := Lower(value);
    assert w[|w| - 2..] == "ти";
    assert VerbRuleOf(w) == EndsTi;
    VerbTensesByRule(value, genus);
    PeriphrasticFutureKept(value);
  }

  /** A чь verb: the four irregular pasts, otherwise stem + г (+ ла when feminine). */
  lemma {:induction false} ChjVerbTenses(value: string, genus: Genus)
    requires value != [] && EndsWith(Lower(value), "чь")
    ensures Tenses(value, genus, Verb) == map[Present := value,
                                             Past := RecaseTenseForm(value, ChjPast(Lower(value), genus)),
                                             Future := "будет " + value]
  {
    var w := Lower(value);
    assert w[|w| - 2..] == "чь";
    assert VerbRuleOf(w) == EndsChj;
    VerbTensesByRule(value, genus);
    PeriphrasticFutureKept(value);
  }

  /** A string that already starts with a capital is its own capitalised form. */
  lemma CapitalisedStaysSame(s: string, c: char)
    requires s != [] && s[0] == c && IsUpper(c)
    ensures CapitaliseFirst(s) == s
  {
    assert [ToUpper(c)] + s[1..] == s;
  }

  /** Any other verb: the base form with " (прошедшее)" and " (будущее)" appended. */
  lemma {:induction false} OtherVerbTenses(value: string, genus: Genus)
    requires value != []
    requires !EndsWith(Lower(value), "ть") && !EndsWith(Lower(value), "ти") && !EndsWith(Lower(value), "чь")
    ensures Tenses(value, genus, Verb) == map[Present := value,
                                             Past := value + " (прошедшее)",
                                             Future := value + " (будущее)"]
  {
    RefinedVerbRulesUnreachable(Lower(value));
    assert VerbRuleOf(Lower(value)) == OtherVerb;
    VerbTensesByRule(value, genus);
    var past := value + " (прошедшее)";
    var future := value + " (будущее)";
    if IsUpper(value[0]) {
      CapitalisedStaysSame(past, value[0]);
      CapitalisedStaysSame(future, value[0]);
    }
  }

  /** Every verb, and every other word, keeps its base form as its present tense. */
  lemma PresentIsBaseForm(value: string, genus: Genus, pos: PartOfSpeech)
    requires value != []
    ensures Tenses(value, genus, pos)[Present] == value
  {
    RecaseKeepsBaseForm(value);
  }

  // ----- Re-capitalisation -----

  /** A form that is non-empty and starts with the word's first letter or with a lower-case letter. */
  predicate StartsLike(f: string, w: string)
    requires w != []
  {
    f != [] && (f[0] == w[0] || IsLower(f[0]))
  }

  /** A shortened stem followed by an ending that starts lower-case starts like the word. */
  lemma StemThenEnding(w: string, n: nat, ending: string)
    requires w != [] && ending != [] && IsLower(ending[0])
    ensures StartsLike(DropLast(w, n) + ending, w)
  {
  }

  /** When each of the six forms starts like the word, so does the form of every case. */
  lemma CaseFormsStart(w: string, nom: string, gen: string, dat: string, acc: string, ins: string, pre: string, d: Declension)
    requires w != []
    requires StartsLike(nom, w) && StartsLike(gen, w) && StartsLike(dat, w)
    requires StartsLike(acc, w) && StartsLike(ins, w) && StartsLike(pre, w)
    ensures StartsLike(CaseForms(nom, gen, dat, acc, ins, pre)[d], w)
  {
  }

  /** The five oblique forms a one-letter stem and lower-case endings give start like the word. */
  lemma StemFormsStart(w: string, n: nat, gen: string, dat: string, acc: string, ins: string, pre: string, d: Declension)
    requires w != []
    requires gen != [] && IsLower(gen[0]) && dat != [] && IsLower(dat[0]) && acc != [] && IsLower(acc[0])
    requires ins != [] && IsLower(ins[0]) && pre != [] && IsLower(pre[0])
    ensures StartsLike(CaseForms(w, DropLast(w, n) + gen, DropLast(w, n) + dat, DropLast(w, n) + acc,
                                 DropLast(w, n) + ins, DropLast(w, n) + pre)[d], w)
  {
    StemThenEnding(w, n, gen); StemThenEnding(w, n, dat); StemThenEnding(w, n, acc);
    StemThenEnding(w, n, ins); StemThenEnding(w, n, pre);
    CaseFormsStart(w, w, DropLast(w, n) + gen, DropLast(w, n) + dat, DropLast(w, n) + acc,
                   DropLast(w, n) + ins, DropLast(w, n) + pre, d);
  }

  /** Every form any rule of the case table gives starts like the word. */
  lemma {:induction false} RuleFormsStart(rule: NounRule, w: string, genus: Genus, d: Declension)
    requires w != []
    ensures StartsLike(RuleForms(rule, w, genus)[d], w)
  {
    var stem := DropLast(w, 1);
    match rule
    case EndsAOrYa =>
      if EndsWith(w, "а") {
        StemFormsStart(w, 1, "ы", "е", "у", "ой", "е", d);
      } else {
        StemFormsStart(w, 1, "и", "е", "ю", "ей", "е", d);
      }
    case EndsOOrE =>
      StemThenEnding(w, 1, "е");
      if EndsWith(w, "о") {
        StemThenEnding(w, 1, "а"); StemThenEnding(w, 1, "у"); StemThenEnding(w, 1, "ом");
        CaseFormsStart(w, w, stem + "а", stem + "у", w, stem + "ом", stem + "е", d);
      } else {
        StemThenEnding(w, 1, "я"); StemThenEnding(w, 1, "ю"); StemThenEnding(w, 1, "ем");
        CaseFormsStart(w, w, stem + "я", stem + "ю", w, stem + "ем", stem + "е", d);
      }
    case EndsSoftSign =>
      if genus == Masculine {
        StemFormsStart(w, 1, "я", "ю", "я", "ем", "е", d);
      } else {
        StemThenEnding(w, 1, "и"); StemThenEnding(w, 1, "ью");
        CaseFormsStart(w, w, stem + "и", stem + "и", w, stem + "ью", stem + "и", d);
      }
    case EndsShortI =>
      StemFormsStart(w, 1, "я", "ю", "я", "ем", "е", d);
    case EndsYiOrIi =>
      StemFormsStart(w, 2, "ого", "ому", "ый", "ым", "ом", d);
    case ConsonantDefault =>
      assert (w + "а")[0] == w[0] && (w + "у")[0] == w[0] && (w + "ом")[0] == w[0] && (w + "е")[0] == w[0];
      CaseFormsStart(w, w, w + "а", w + "у", w, w + "ом", w + "е", d);
  }

  /** Every form of the case table starts like the word. */
  lemma {:induction false} NounFormsStart(w: string, genus: Genus, d: Declension)
    requires w != []
    ensures StartsLike(NounForms(w, genus)[d], w)
  {
    RuleFormsStart(NounRuleOf(w), w, genus, d);
  }

  /** The proper-noun rule: a case form starts upper-case exactly when the base form does. */
  lemma {:induction false} DeclensionCapitalisation(value: string, genus: Genus, pos: PartOfSpeech, d: Declension)
    requires value != []
    ensures Declensions(value, genus, pos)[d] != []
    ensures IsUpper(Declensions(value, genus, pos)[d][0]) <==> IsUpper(value[0])
  {
    if pos != Verb {
      var forms := NounForms(Lower(value), genus);
      NounFormsStart(Lower(value), genus, d);
      RecaseStartsLike(value, forms[d]);
      assert Declensions(value, genus, pos)[d] == RecaseCaseForm(value, forms[d]);
    }
  }

  /** A form that starts like the lower-cased word, re-capitalised, is capitalised exactly when the word is. */
  lemma RecaseStartsLike(value: string, f: string)
    requires value != [] && StartsLike(f, Lower(value))
    ensures RecaseCaseForm(value, f) != []
    ensures IsUpper(RecaseCaseForm(value, f)[0]) <==> IsUpper(value[0])
  {
    assert Lower(value)[0] == ToLower(value[0]);
  }

  /** The nominative is the lower-cased base form, with the base form's capital kept. */
  lemma {:induction false} NominativeKeepsCapital(value: string, genus: Genus, pos: PartOfSpeech)
    requires value != [] && pos != Verb
    ensures Declensions(value, genus, pos)[Nominative]
         == if IsUpper(value[0]) then [value[0]] + Lower(value)[1..] else Lower(value)
  {
    if IsUpper(value[0]) {
      UpperRoundTrip(value[0]);
    }
  }

  /** The past form of an чь verb starts like the verb: the irregular pasts start lower-case. */
  lemma {:induction false} ChjPastStart(w: string, genus: Genus)
    requires w != []
    ensures StartsLike(ChjPast(w, genus), w)
  {
    var ending := "г" + (if genus == Feminine then "ла" else "");
    StemThenEnding(w, 2, ending);
    assert DropLast(w, 2) + "г" + (if genus == Feminine then "ла" else "") == DropLast(w, 2) + ending;
  }

  /** The past form any reachable rule of the verb table gives starts like the lower-cased verb, or with the base form's first letter. */
  lemma {:induction false} PastFormStart(value: string, genus: Genus)
    requires value != []
    ensures var w := Lower(value);
            var f := PastForm(VerbRuleOf(w), value, w, genus);
            StartsLike(f, w) || (f != [] && f[0] == value[0])
  {
    var w := Lower(value);
    var rule := VerbRuleOf(w);
    RefinedVerbRulesUnreachable(w);
    match rule
    case EndsTj => StemThenEnding(w, 2, TjPastEnding(genus));
    case EndsTi => StemThenEnding(w, 2, "л");
    case EndsChj => ChjPastStart(w, genus);
    case OtherVerb => assert (value + " (прошедшее)")[0] == value[0];
  }

  /** Every tense form starts like the lower-cased verb, or with the base form's own first letter. */
  lemma {:induction false} VerbFormsStart(value: string, genus: Genus, t: Time)
    requires value != []
    ensures var f := VerbForms(value, Lower(value), genus)[t];
            StartsLike(f, Lower(value)) || (f != [] && f[0] == value[0])
  {
    var w := Lower(value);
    var rule := VerbRuleOf(w);
    if t == Past {
      PastFormStart(value, genus);
    } else if t == Future {
      assert ("будет " + value)[0] == 'б';
      assert (value + " (будущее)")[0] == value[0];
    }
  }

  /**
   * The proper-noun rule for tenses: a tense form that does not start with
   * "будет" starts upper-case exactly when the base form does.
   */
  lemma {:induction false} TenseCapitalisation(value: string, genus: Genus, pos: PartOfSpeech, t: Time)
    requires value != []
    ensures Tenses(value, genus, pos)[t] != []
    ensures !StartsWith(Tenses(value, genus, pos)[t], "будет") ==>
              (IsUpper(Tenses(value, genus, pos)[t][0]) <==> IsUpper(value[0]))
  {
    if pos == Verb {
      VerbFormsStart(value, genus, t);
    }
  }

  /** A base form that does not start upper-case is declined exactly by the rule table. */
  lemma {:induction false} LowerCaseDeclensions(value: string, genus: Genus, pos: PartOfSpeech)
    requires value != [] && pos != Verb && !IsUpper(value[0])
    ensures Declensions(value, genus, pos) == NounForms(Lower(value), genus)
  {
    var r := Declensions(value, genus, pos);
    var forms := NounForms(Lower(value), genus);
    assert r.Keys == forms.Keys;
    assert forall d :: d in r ==> r[d] == forms[d];
  }

  // ----- Worked examples: машина, стол, красный and читать from the program's
  // vocabulary, and Москва, which shows the capital kept (no vocabulary word
  // starts upper-case) -----

  /** машина: the а rule, genitive машины, instrumental машиной. */
  lemma MashinaParadigm(w: string)
    requires w == "машина"
    ensures Declensions(w, Feminine, Noun) == CaseForms(w, "машины", "машине", "машину", "машиной", "машине")
  {
    MashinaLetters(w);
    LowerCaseDeclensions(w, Feminine, Noun);
    AFinalForms(w, Feminine);
  }

  lemma MashinaLetters(w: string)
    requires w == "машина"
    ensures Lower(w) == w && !IsUpper(w[0]) && EndsWith(w, "а")
    ensures DropLast(w, 1) + "ы" == "машины" && DropLast(w, 1) + "е" == "машине"
    ensures DropLast(w, 1) + "у" == "машину" && DropLast(w, 1) + "ой" == "машиной"
  {
    LowerKeepsLowerCase(w);
  }

  /** стол: instrumental столом, accusative стол. */
  lemma StolParadigm(w: string)
    requires w == "стол"
    ensures Declensions(w, Masculine, Noun) == CaseForms(w, "стола", "столу", "стол", "столом", "столе")
  {
    StolLetters(w);
    LowerCaseDeclensions(w, Masculine, Noun);
    ConsonantForms(w, Masculine);
  }

  lemma StolLetters(w: string)
    requires w == "стол"
    ensures Lower(w) == w && !IsUpper(w[0]) && w[|w| - 1] !in "аяоеьй"
    ensures w + "а" == "стола" && w + "у" == "столу" && w + "ом" == "столом" && w + "е" == "столе"
  {
    LowerKeepsLowerCase(w);
  }

  /** красный falls to the й rule: genitive красныя. */
  lemma KrasnyParadigm(w: string)
    requires w == "красный"
    ensures Declensions(w, Masculine, Adjective)[Genitive] == "красныя"
  {
    KrasnyLetters(w);
    LowerCaseDeclensions(w, Masculine, Adjective);
    AdjectiveTakesShortIRule(w, Masculine);
  }

  lemma KrasnyLetters(w: string)
    requires w == "красный"
    ensures Lower(w) == w && !IsUpper(w[0]) && EndsWith(w, "ый")
    ensures DropLast(w, 1) + "я" == "красныя"
  {
    LowerKeepsLowerCase(w);
  }

  /** A capitalised base form keeps its capital in every case: Москва, Москвы. */
  lemma MoskvaParadigm(w: string)
    requires w == "Москва"
    ensures Declensions(w, Feminine, Noun)[Genitive] == "Москвы"
  {
    MoskvaLetters(w);
    AFinalForms(Lower(w), Feminine);
    assert Declensions(w, Feminine, Noun)[Genitive] == RecaseCaseForm(w, NounForms(Lower(w), Feminine)[Genitive]);
  }

  lemma MoskvaLetters(w: string)
    requires w == "Москва"
    ensures IsUpper(w[0]) && EndsWith(Lower(w), "а")
    ensures CapitaliseFirst(DropLast(Lower(w), 1) + "ы") == "Москвы"
  {
    assert Lower(w) == "москва";
    assert DropLast("москва", 1) + "ы" == "москвы";
  }

  /** читать: past читал / читала by the verb's genus, future будет читать. */
  lemma ChitatTenses(w: string)
    requires w == "читать"
    ensures Tenses(w, NoGenus, Verb)[Past] == "читал"
    ensures Tenses(w, Feminine, Verb)[Past] == "читала"
    ensures Tenses(w, NoGenus, Verb)[Future] == "будет читать"
  {
    ChitatLetters(w);
    TjVerbTenses(w, NoGenus);
    TjVerbTenses(w, Feminine);
  }

  lemma ChitatLetters(w: string)
    requires w == "читать"
    ensures Lower(w) == w && !IsUpper(w[0]) && EndsWith(w, "ть")
    ensures DropLast(w, 2) + TjPastEnding(NoGenus) == "читал"
    ensures DropLast(w, 2) + TjPastEnding(Feminine) == "читала"
    ensures "будет " + w == "будет читать"
  {
    LowerKeepsLowerCase(w);
  }
}
