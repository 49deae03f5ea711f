/** The weekly diet generator: one of four meal templates is chosen from the
    family's conditions, and the seven days rotate through its meal pools. */
module Diet {
  import opened Wrappers
  import opened JsText
  import opened Records

  datatype MealItem = MealItem(name: string, vitamins: seq<string>, minerals: seq<string>)
  datatype Meals = Meals(breakfast: MealItem, lunch: MealItem, dinner: MealItem)
  datatype DayPlan = DayPlan(day: string, meals: Meals)

  /** The optional risk argument; `percent` and `base` are integers here. */
  datatype RiskResult = RiskResult(disease: string, percent: int, base: int)

  /** A template: a pool of meals for each of the three meals of a day. */
  datatype Template = Template(breakfast: seq<MealItem>, lunch: seq<MealItem>, dinner: seq<MealItem>)

  datatype TemplateKey = DiabetesTemplate | HeartTemplate | CancerTemplate | DefaultTemplate

  const Days: seq<string> := ["Monday", "Tuesday", "Wednesday", "Thursday", "Friday", "Saturday", "Sunday"]

  /** The four fixed templates, from `mealTemplates`. */
  const DiabetesMeals: Template :=
    Template(
      [MealItem("Oatmeal with walnuts & blueberries", ["B1", "B6", "Vitamin C"], ["Magnesium", "Potassium"]),
       MealItem("Greek yogurt with chia & berries", ["Vitamin D", "B12"], ["Calcium", "Phosphorus"])],
      [MealItem("Grilled chicken salad with mixed greens", ["Vitamin A", "Vitamin K"], ["Iron", "Potassium"]),
       MealItem("Lentil & quinoa bowl with vegetables", ["Folate", "Vitamin C"], ["Iron", "Magnesium"])],
      [MealItem("Baked salmon with steamed broccoli", ["Vitamin D", "B12"], ["Omega-3", "Selenium"]),
       MealItem("Tofu stir-fry with broccoli and peppers", ["Vitamin C", "K"], ["Calcium", "Iron"])])

  const HeartMeals: Template :=
    Template(
      [MealItem("Whole grain toast with avocado", ["E", "K"], ["Potassium", "Magnesium"]),
       MealItem("Steel-cut oats with almonds", ["B1"], ["Magnesium", "Calcium"])],
      [MealItem("Quinoa salad with chickpeas & greens", ["Folate", "C"], ["Iron", "Magnesium"]),
       MealItem("Grilled tuna salad", ["D", "B12"], ["Selenium", "Potassium"])],
      [MealItem("Lentil stew with spinach", ["A", "K"], ["Iron", "Folate"]),
       MealItem("Roasted vegetables with olive oil", ["C", "E"], ["Potassium", "Manganese"])])

  const CancerMeals: Template :=
    Template(
      [MealItem("Green smoothie with spinach, banana & protein", ["A", "C"], ["Iron", "Potassium"]),
       MealItem("Berry & seed porridge", ["C"], ["Magnesium", "Zinc"])],
      [MealItem("Roasted vegetable bowl with quinoa", ["C", "K"], ["Fiber", "Magnesium"]),
       MealItem("Grilled salmon & kale salad", ["D", "A"], ["Omega-3", "Calcium"])],
      [MealItem("Grilled fish with sweet potato", ["A", "C"], ["Potassium", "Beta-carotene"]),
       MealItem("Stir-fried tofu with mixed vegetables", ["B", "C"], ["Iron", "Calcium"])])

  const DefaultMeals: Template :=
    Template(
      [MealItem("Greek yogurt with fruit and seeds", ["B12", "C"], ["Calcium", "Magnesium"]),
       MealItem("Smoothie bowl with mixed fruit", ["C", "A"], ["Potassium"])],
      [MealItem("Turkey & avocado sandwich on whole grain", ["B3", "B6"], ["Potassium", "Magnesium"]),
       MealItem("Chickpea salad with veggie mix", ["C", "Folate"], ["Iron", "Magnesium"])],
      [MealItem("Stir-fry vegetables with tofu and brown rice", ["B", "C"], ["Iron", "Magnesium"]),
       MealItem("Grilled chicken with roasted vegetables", ["B6", "C"], ["Potassium", "Phosphorus"])])

  /** The template for a key; every pool holds two meals. */
  function TemplateOf(key: TemplateKey): (t: Template)
    ensures |t.breakfast| == 2 && |t.lunch| == 2 && |t.dinner| == 2
  {
    match key
    case DiabetesTemplate => DiabetesMeals
    case HeartTemplate => HeartMeals
    case CancerTemplate => CancerMeals
    case DefaultTemplate => DefaultMeals
  }

  /** The lower-cased names of every condition of every member, member by member. */
  function ConditionNames(members: seq<FamilyMember>): (names: seq<string>)
    ensures |names| == TotalConditions(members)
  {
    if members == [] then []
    else HistoryNames(members[0].medicalHistory) + ConditionNames(members[1..])
  }

  function HistoryNames(history: seq<MedicalCondition>): (names: seq<string>)
    ensures |names| == |history|
    ensures forall k :: 0 <= k < |history| ==> names[k] == ToLower(history[k].condition)
  {
    seq(|history|, k requires 0 <= k < |history| => ToLower(history[k].condition))
  }

  /** `conditions.some(c => c.includes(word))`. */
  predicate AnyContains(conditions: seq<string>, word: string) {
    exists k :: 0 <= k < |conditions| && Contains(conditions[k], word)
  }

  /** The template choice, by priority: diabetes, then heart or hypertension,
      then cancer, otherwise the default template. */
  function ChooseTemplate(conditions: seq<string>): TemplateKey
  {
    if AnyContains(conditions, "diabetes") then DiabetesTemplate
    else if AnyContains(conditions, "heart") || AnyContains(conditions, "hypertension") then HeartTemplate
    else if AnyContains(conditions, "cancer") then CancerTemplate
    else DefaultTemplate
  }

  /** `members || []`: a missing member list counts as empty. */
  function MemberList(members: Option<seq<FamilyMember>>): seq<FamilyMember>
  {
    if members.Some? then members.value else []
  }

  /** The template the generator uses for the given members. */
  function ChosenTemplate(members: Option<seq<FamilyMember>>): TemplateKey
  {
    ChooseTemplate(ConditionNames(MemberList(members)))
  }

  /** The plan for day i of the week from template t. */
  function PlanDay(t: Template, i: nat): DayPlan
    requires i < |Days|
    requires |t.breakfast| > 0 && |t.lunch| > 0 && |t.dinner| > 0
  {
    DayPlan(Days[i], Meals(t.breakfast[i % |t.breakfast|], t.lunch[i % |t.lunch|], t.dinner[i % |t.dinner|]))
  }

  /** `generateWeeklyDietPlan(members, risk)`: seven days, Monday to Sunday. */
  function GenerateWeeklyDietPlan(members: Option<seq<FamilyMember>>, risk: Option<RiskResult>): (plan: seq<DayPlan>)
    ensures |plan| == 7
    ensures forall i :: 0 <= i < 7 ==> plan[i].day == Days[i]
  {
    var chosen := TemplateOf(ChosenTemplate(members));
    seq(|Days|, i requires 0 <= i < |Days| => PlanDay(chosen, i))
  }

  /** Every meal of the plan is taken from the matching pool of the chosen template. */
  lemma MealsFromPools(members: Option<seq<FamilyMember>>, risk: Option<RiskResult>, i: nat)
    requires i < 7
    ensures var plan := GenerateWeeklyDietPlan(members, risk);
            var t := TemplateOf(ChosenTemplate(members));
            plan[i].meals.breakfast in t.breakfast &&
            plan[i].meals.lunch in t.lunch &&
            plan[i].meals.dinner in t.dinner
  {
  }

  /** Day i takes the meals at position i mod 2 of each pool. */
  lemma MealsRotate(members: Option<seq<FamilyMember>>, risk: Option<RiskResult>, i: nat)
    requires i < 7
    ensures var plan := GenerateWeeklyDietPlan(members, risk);
            var t := TemplateOf(ChosenTemplate(members));
            plan[i].meals == Meals(t.breakfast[i % 2], t.lunch[i % 2], t.dinner[i % 2])
  {
  }

  /** With two-meal pools, a day and the day two later get the same meals. */
  lemma MealsRepeatEveryTwoDays(members: Option<seq<FamilyMember>>, risk: Option<RiskResult>, i: nat)
    requires i + 2 < 7
    ensures var plan := GenerateWeeklyDietPlan(members, risk);
            plan[i].meals == plan[i + 2].meals
  {
    assert (i + 2) % 2 == i % 2;
  }

  /** The risk argument has no effect on the plan. */
  lemma RiskIgnored(members: Option<seq<FamilyMember>>, r1: Option<RiskResult>, r2: Option<RiskResult>)
    ensures GenerateWeeklyDietPlan(members, r1) == GenerateWeeklyDietPlan(members, r2)
  {
  }

  /** The template choice stated case by case: each template is chosen exactly
      when its keyword is present and no keyword of higher priority is. */
  lemma ChooseTemplatePriority(conditions: seq<string>)
    ensures var diabetes := AnyContains(conditions, "diabetes");
            var heart := AnyContains(conditions, "heart") || AnyContains(conditions, "hypertension");
            var cancer := AnyContains(conditions, "cancer");
            && (ChooseTemplate(conditions) == DiabetesTemplate <==> diabetes)
            && (ChooseTemplate(conditions) == HeartTemplate <==> !diabetes && heart)
            && (ChooseTemplate(conditions) == CancerTemplate <==> !diabetes && !heart && cancer)
            && (ChooseTemplate(conditions) == DefaultTemplate <==> !diabetes && !heart && !cancer)
  {
  }

  /** A member whose condition mentions diabetes in any letter case selects the
      diabetes template, whatever the other conditions are. */
  lemma {:induction false} DiabetesWins(members: seq<FamilyMember>, m: nat, c: nat)
    requires m < |members| && c < |members[m].medicalHistory|
    requires Contains(ToLower(members[m].medicalHistory[c].condition), "diabetes")
    ensures ChosenTemplate(Some(members)) == DiabetesTemplate
  {
    NameListed(members, m, c);
  }

  /** The lower-cased name of each condition is among the names the generator scans. */
  lemma {:induction false} NameListed(members: seq<FamilyMember>, m: nat, c: nat)
    requires m < |members| && c < |members[m].medicalHistory|
    ensures ToLower(members[m].medicalHistory[c].condition) in ConditionNames(members)
  {
    if m > 0 {
      NameListed(members[1..], m - 1, c);
    } else {
      assert HistoryNames(members[0].medicalHistory)[c] == ToLower(members[0].medicalHistory[c].condition);
    }
  }

  /** Some member has a condition whose lower-cased name is n. */
  predicate Mentioned(members: seq<FamilyMember>, n: string) {
    exists m, c :: 0 <= m < |members| && 0 <= c < |members[m].medicalHistory| &&
      n == ToLower(members[m].medicalHistory[c].condition)
  }

  /** The flattened list holds exactly the lower-cased condition names: a name is
      listed if and only if some member has a condition lower-casing to it. */
  lemma {:induction false} ConditionNameSource(members: seq<FamilyMember>, n: string)
    ensures n in ConditionNames(members) <==> Mentioned(members, n)
  {
    if n in ConditionNames(members) {
      assert members != [];
      var head := HistoryNames(members[0].medicalHistory);
      if n in head {
        var c :| 0 <= c < |head| && head[c] == n;
        assert n == ToLower(members[0].medicalHistory[c].condition);
      } else {
        assert n in ConditionNames(members[1..]);
        ConditionNameSource(members[1..], n);
        var m, c :| 0 <= m < |members[1..]| && 0 <= c < |members[1..][m].medicalHistory| &&
          n == ToLower(members[1..][m].medicalHistory[c].condition);
        assert members[m + 1] == members[1..][m];
      }
    }
    if Mentioned(members, n) {
      var m, c :| 0 <= m < |members| && 0 <= c < |members[m].medicalHistory| &&
        n == ToLower(members[m].medicalHistory[c].condition);
      NameListed(members, m, c);
    }
  }

  /** Some member has a condition that mentions word once lower-cased. */
  predicate MemberMentions(members: seq<FamilyMember>, word: string) {
    exists m, c :: 0 <= m < |members| && 0 <= c < |members[m].medicalHistory| &&
      Contains(ToLower(members[m].medicalHistory[c].condition), word)
  }

  /** Scanning the flattened names finds a word exactly when some member's
      lower-cased condition contains it. */
  lemma MentionsListed(members: seq<FamilyMember>, word: string)
    ensures AnyContains(ConditionNames(members), word) <==> MemberMentions(members, word)
  {
    var names := ConditionNames(members);
    if AnyContains(names, word) {
      var k :| 0 <= k < |names| && Contains(names[k], word);
      ConditionNameSource(members, names[k]);
      var m, c :| 0 <= m < |members| && 0 <= c < |members[m].medicalHistory| &&
        names[k] == ToLower(members[m].medicalHistory[c].condition);
    }
    if MemberMentions(members, word) {
      var m, c :| 0 <= m < |members| && 0 <= c < |members[m].medicalHistory| &&
        Contains(ToLower(members[m].medicalHistory[c].condition), word);
      NameListed(members, m, c);
      var n := ToLower(members[m].medicalHistory[c].condition);
      var k :| 0 <= k < |names| && names[k] == n;
    }
  }

  /** The template choice for a member list, stated on the members themselves:
      each template is chosen exactly when some member's condition mentions its
      keyword, in any letter case, and none mentions a keyword of higher priority. */
  lemma ChosenTemplatePriority(members: Option<seq<FamilyMember>>)
    ensures var ms := MemberList(members);
            var diabetes := MemberMentions(ms, "diabetes");
            var heart := MemberMentions(ms, "heart") || MemberMentions(ms, "hypertension");
            var cancer := MemberMentions(ms, "cancer");
            var key := ChosenTemplate(members);
            && (key == DiabetesTemplate <==> diabetes)
            && (key == HeartTemplate <==> !diabetes && heart)
            && (key == CancerTemplate <==> !diabetes && !heart && cancer)
            && (key == DefaultTemplate <==> !diabetes && !heart && !cancer)
  {
    var ms := MemberList(members);
    MentionsListed(ms, "diabetes");
    MentionsListed(ms, "heart");
    MentionsListed(ms, "hypertension");
    MentionsListed(ms, "cancer");
  }

  /** Matching ignores letter case: "Diabetes Type 2" selects the diabetes template. */
  lemma DiabetesTypeTwoMatches(members: seq<FamilyMember>, m: nat, c: nat)
    requires m < |members| && c < |members[m].medicalHistory|
    requires members[m].medicalHistory[c].condition == "Diabetes Type 2"
    ensures ChosenTemplate(Some(members)) == DiabetesTemplate
  {
    var lower := ToLower("Diabetes Type 2");
    assert lower[..8] == "diabetes";
    assert "diabetes" <= lower[0..];
    DiabetesWins(members, m, c);
  }

  /** Without members, or with no member list at all, the default template is used. */
  lemma NoMembersDefault()
    ensures ChosenTemplate(None) == DefaultTemplate
    ensures ChosenTemplate(Some([])) == DefaultTemplate
  {
  }
}
