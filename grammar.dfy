/** The grammar page: which category and rule are selected (from URL parameters, with
    fallbacks), the sidebar search, and the practice exercise graded by the analysis
    engine. */
module Grammar {
  import opened Common
  import opened Text
  import Barista

  datatype Example = Example(cn: string, kr: string)

  datatype Rule = Rule(id: string, title: string, summary: string, examples: seq<Example>)

  datatype GrammarCategory = GrammarCategory(id: string, name: string, items: seq<Rule>)

  /** The page reads `grammarData[0].items[0]` and the first item of any category it
      selects, so the data has a first category and no category without rules. */
  predicate WellFormed(data: seq<GrammarCategory>) {
    data != [] && forall k :: 0 <= k < |data| ==> data[k].items != []
  }

  /** `grammarData.find(c => c.id === id)`, as the index of the first match. */
  function FindCategory(data: seq<GrammarCategory>, id: string): (r: Option<nat>)
    ensures r.Some? ==> r.value < |data| && data[r.value].id == id
                        && forall j :: 0 <= j < r.value ==> data[j].id != id
    ensures r.None? ==> forall j :: 0 <= j < |data| ==> data[j].id != id
  {
    FirstIndex(data, (c: GrammarCategory) => c.id == id)
  }

  /** `items.find(r => r.id === id)`, as the index of the first match. */
  function FindRule(items: seq<Rule>, id: string): (r: Option<nat>)
    ensures r.Some? ==> r.value < |items| && items[r.value].id == id
                        && forall j :: 0 <= j < r.value ==> items[j].id != id
    ensures r.None? ==> forall j :: 0 <= j < |items| ==> items[j].id != id
  {
    FirstIndex(items, (x: Rule) => x.id == id)
  }

  /** The category shown: the first one with the selected id, else the first category. */
  function CurrentCategory(data: seq<GrammarCategory>, selected: string): (c: GrammarCategory)
    requires WellFormed(data)
    ensures c in data && c.items != []
    ensures (exists k :: 0 <= k < |data| && data[k].id == selected) ==> c.id == selected
    ensures (forall k :: 0 <= k < |data| ==> data[k].id != selected) ==> c == data[0]
  {
    var k := FindCategory(data, selected);
    if k.Some? then data[k.value] else data[0]
  }

  /** The rule shown: the first rule of the category with the selected id, else the
      category's first rule. */
  function CurrentRule(category: GrammarCategory, ruleId: string): (r: Rule)
    requires category.items != []
    ensures r in category.items
    ensures (exists k :: 0 <= k < |category.items| && category.items[k].id == ruleId) ==> r.id == ruleId
    ensures (forall k :: 0 <= k < |category.items| ==> category.items[k].id != ruleId) ==> r == category.items[0]
  {
    var k := FindRule(category.items, ruleId);
    if k.Some? then category.items[k.value] else category.items[0]
  }

  /** When the selected ids name a category and one of its rules, that category and
      that rule are the ones shown: the fallbacks only apply to unknown ids. */
  lemma ShownIsSelected(data: seq<GrammarCategory>, categoryId: string, ruleId: string)
    requires WellFormed(data)
    requires FindCategory(data, categoryId).Some?
    requires FindRule(data[FindCategory(data, categoryId).value].items, ruleId).Some?
    ensures CurrentCategory(data, categoryId).id == categoryId
    ensures CurrentRule(CurrentCategory(data, categoryId), ruleId).id == ruleId
  {
  }

  /** `item.title.includes(query) || item.summary.includes(query)`. */
  predicate Matches(item: Rule, query: string) {
    Contains(item.title, query) || Contains(item.summary, query)
  }

  /** The sidebar filter: the rules whose title or summary contains the query, in order. */
  function SidebarFilter(items: seq<Rule>, query: string): (r: seq<Rule>)
    ensures |r| <= |items|
    ensures forall x :: x in r <==> x in items && Matches(x, query)
  {
    if items == [] then []
    else if Matches(items[0], query) then [items[0]] + SidebarFilter(items[1..], query)
    else SidebarFilter(items[1..], query)
  }

  /** An empty search keeps every rule, in order. */
  lemma {:induction false} EmptyQueryKeepsAll(items: seq<Rule>)
    ensures SidebarFilter(items, []) == items
  {
    if items != [] {
      ContainsEmpty(items[0].title);
      EmptyQueryKeepsAll(items[1..]);
    }
  }

  /** A rule is listed for a query exactly when the query occurs in its title or its
      summary at some position. */
  lemma ListedIffOccurs(items: seq<Rule>, query: string, x: Rule)
    ensures x in SidebarFilter(items, query) <==>
      x in items && ((exists i :: OccursAt(x.title, query, i)) || (exists i :: OccursAt(x.summary, query, i)))
  {
    ContainsIffOccurs(x.title, query);
    ContainsIffOccurs(x.summary, query);
  }

  /** The rules listed under a category: the filtered rules when the category is the
      selected one or a search is typed, otherwise none. A rule is listed exactly when it
      belongs to the category, the category is open, and the query occurs in the rule;
      the selected category without a search lists all its rules, in order. */
  function VisibleRules(category: GrammarCategory, selected: string, query: string): (r: seq<Rule>)
    ensures forall x :: x in r <==>
      x in category.items && (selected == category.id || query != []) && Matches(x, query)
    ensures selected == category.id && query == [] ==> r == category.items
  {
    if selected == category.id && query == [] then EmptyQueryKeepsAll(category.items); SidebarFilter(category.items, query)
    else if selected == category.id || query != [] then SidebarFilter(category.items, query)
    else []
  }

  /** Practice is graded at 0 wpm, so the speed-praising tiers never appear and a perfect
      answer always gets the "now work on speed" feedback. */
  lemma PracticeFeedback(score: int, mistakes: nat)
    ensures Barista.Feedback(score, mistakes, 0) != Barista.NativeLevel
    ensures Barista.Feedback(score, mistakes, 0) != Barista.PerfectTrySpeed
    ensures score == 100 ==> Barista.Feedback(score, mistakes, 0) == Barista.PerfectFocusSpeed
  {
  }

  class GrammarPage {
    const data: seq<GrammarCategory>
    var selectedCategory: string
    var selectedRuleId: string
    var searchQuery: string
    var practiceInput: string
    var feedback: Option<Barista.Analysis>
    var currentChallenge: Option<Example>

    /** The first category and its first rule are selected. */
    constructor(data: seq<GrammarCategory>)
      requires WellFormed(data)
      ensures this.data == data
      ensures selectedCategory == data[0].id && selectedRuleId == data[0].items[0].id
      ensures searchQuery == [] && practiceInput == [] && feedback == None && currentChallenge == None
    {
      this.data := data;
      selectedCategory := data[0].id;
      selectedRuleId := data[0].items[0].id;
      searchQuery := [];
      practiceInput := [];
      feedback := None;
      currentChallenge := None;
    }

    /** The URL parameters `category` and `rule`: an existing category is selected, and
      then an existing rule of it, or, when no rule is given, its first rule; anything
      else leaves the selection as it was. */
    method ApplyParams(categoryParam: Option<string>, ruleParam: Option<string>)
      requires WellFormed(data)
      modifies this`selectedCategory, this`selectedRuleId
      ensures var given := categoryParam.Some? && categoryParam.value != [];
        var k := if given then FindCategory(data, categoryParam.value) else None;
        if k.None? then
          selectedCategory == old(selectedCategory) && selectedRuleId == old(selectedRuleId)
        else
          var items := data[k.value].items;
          && selectedCategory == categoryParam.value
          && (ruleParam.None? || ruleParam.value == [] ==> selectedRuleId == items[0].id)
          && (ruleParam.Some? && ruleParam.value != [] ==>
                selectedRuleId == (if FindRule(items, ruleParam.value).Some? then ruleParam.value else old(selectedRuleId)))
          && (ruleParam.None? || ruleParam.value == [] || FindRule(items, ruleParam.value).Some? ==>
                FindRule(items, selectedRuleId).Some?)
    {
      if categoryParam.Some? && categoryParam.value != [] {
        var k := FindCategory(data, categoryParam.value);
        if k.Some? {
          var category := data[k.value];
          selectedCategory := categoryParam.value;
          if ruleParam.Some? && ruleParam.value != [] {
            if FindRule(category.items, ruleParam.value).Some? {
              selectedRuleId := ruleParam.value;
            }
          } else {
            selectedRuleId := category.items[0].id;
          }
        }
      }
    }

    /** Clicking a category heading or a rule in the sidebar. */
    method SelectCategory(id: string)
      modifies this`selectedCategory
      ensures selectedCategory == id
    {
      selectedCategory := id;
    }

    method SelectRule(id: string)
      modifies this`selectedRuleId
      ensures selectedRuleId == id
    {
      selectedRuleId := id;
    }

    method Search(query: string)
      modifies this`searchQuery
      ensures searchQuery == query
    {
      searchQuery := query;
    }

    method TypePractice(text: string)
      modifies this`practiceInput
      ensures practiceInput == text
    {
      practiceInput := text;
    }

    /** The effect run when the shown rule changes: with examples, the example at the
      randomly drawn index `pick` becomes the challenge and the answer is cleared;
      a rule without examples keeps everything. */
    method LoadChallenge(pick: nat)
      requires WellFormed(data)
      requires pick < |CurrentRule(CurrentCategory(data, selectedCategory), selectedRuleId).examples|
               || CurrentRule(CurrentCategory(data, selectedCategory), selectedRuleId).examples == []
      modifies this`currentChallenge, this`practiceInput, this`feedback
      ensures var rule := CurrentRule(CurrentCategory(data, selectedCategory), selectedRuleId);
        if rule.examples == [] then
          currentChallenge == old(currentChallenge) && practiceInput == old(practiceInput) && feedback == old(feedback)
        else
          currentChallenge == Some(rule.examples[pick]) && practiceInput == [] && feedback == None
    {
      var rule := CurrentRule(CurrentCategory(data, selectedCategory), selectedRuleId);
      if |rule.examples| > 0 {
        currentChallenge := Some(rule.examples[pick]);
        practiceInput := [];
        feedback := None;
      }
    }

    /** `handlePracticeSubmit()`: ignored for a blank answer or without a challenge;
      otherwise the answer is analysed against the challenge's Korean sentence at 0 wpm
      (`diffs` is their diff). */
    method SubmitPractice(diffs: seq<Barista.Span>)
      requires currentChallenge.Some? ==> Barista.ValidDiff(diffs, currentChallenge.value.kr, practiceInput)
      modifies this`feedback
      ensures Trim(practiceInput) == [] || currentChallenge.None? ==> feedback == old(feedback)
      ensures Trim(practiceInput) != [] && currentChallenge.Some? ==>
        var cs := Barista.Walk(diffs, 0);
        var score := Barista.Score(|practiceInput|, |currentChallenge.value.kr|, |cs|);
        feedback == Some(Barista.Analysis(score, Barista.Feedback(score, |cs|, 0), cs))
        && 0 <= score <= 100
        && (score == 100 ==> feedback.value.feedback == Barista.PerfectFocusSpeed)
    {
      if Trim(practiceInput) == [] || currentChallenge.None? {
        return;
      }
      var result := Barista.AnalyzeInput(practiceInput, currentChallenge.value.kr, 0, diffs);
      feedback := Some(result);
    }
  }
}
