/** The judge-rule override editor: which rules a toggle saves, the question before the last
    active rule of a class goes, and runs in which the saved list is echoed back. */
module JudgeOverride {
  import opened Text
  import opened StringOrder

  datatype Rule = Rule(id: string, family: string, verdictClass: string, locked: bool, overridden: bool)

  /** One family's list as it is saved. */
  datatype Save = Save(family: string, ids: seq<string>)

  const DEFAULT_CLASS := "confirmable_destructive"

  function ClassOf(r: Rule): string {
    if r.verdictClass != "" then r.verdictClass else DEFAULT_CLASS
  }

  ghost predicate UniqueIds(rules: seq<Rule>) {
    forall i, j | 0 <= i < j < |rules| :: rules[i].id != rules[j].id
  }

  function OfClass(rules: seq<Rule>, cls: string): seq<Rule> {
    if rules == [] then []
    else OfClass(rules[..|rules| - 1], cls)
         + if ClassOf(rules[|rules| - 1]) == cls then [rules[|rules| - 1]] else []
  }

  predicate IsActive(r: Rule) {
    !r.overridden && !r.locked
  }

  function Active(rules: seq<Rule>): seq<Rule> {
    if rules == [] then [] else (if IsActive(rules[0]) then [rules[0]] else []) + Active(rules[1..])
  }

  /** The family's current list: overridden rules that are not locked. */
  function FamilyList(rules: seq<Rule>, family: string): seq<string> {
    if rules == [] then []
    else (if rules[0].family == family && rules[0].overridden && !rules[0].locked then [rules[0].id] else [])
         + FamilyList(rules[1..], family)
  }

  function Without(ids: seq<string>, id: string): seq<string> {
    if ids == [] then [] else (if ids[0] == id then [] else [ids[0]]) + Without(ids[1..], id)
  }

  /** Toggling this rule takes the last active rule out of its class. */
  predicate TakesLast(rules: seq<Rule>, r: Rule) {
    var active := Active(OfClass(rules, ClassOf(r)));
    !r.overridden && |active| == 1 && active[0].id == r.id
  }

  /** The family's next list, not yet sorted. */
  function Edited(rules: seq<Rule>, r: Rule): seq<string> {
    var ids := FamilyList(rules, r.family);
    if r.overridden then Without(ids, r.id) else ids + [r.id]
  }

  function Toggled(rules: seq<Rule>, r: Rule): Save {
    Save(r.family, Sort(Edited(rules, r)))
  }

  /** `toggleRule`: None when nothing is saved; `yes` is the answer to the confirmation. */
  function Toggle(rules: seq<Rule>, r: Rule, canEdit: bool, yes: bool): Option<Save> {
    if !canEdit || r.locked then None
    else if TakesLast(rules, r) && !yes then None
    else Some(Toggled(rules, r))
  }

  /** The next snapshot: the family's unlocked rules are overridden as the list says. */
  function Echo(rules: seq<Rule>, save: Save): (echoed: seq<Rule>)
    ensures |echoed| == |rules|
    ensures forall i | 0 <= i < |rules| ::
              echoed[i] == if rules[i].family == save.family && !rules[i].locked
                           then rules[i].(overridden := rules[i].id in save.ids) else rules[i]
  {
    seq(|rules|, i requires 0 <= i < |rules| =>
      if rules[i].family == save.family && !rules[i].locked
      then rules[i].(overridden := rules[i].id in save.ids) else rules[i])
  }

  // ---------------------------------------------------------------- one toggle

  lemma {:induction false} InFamilyList(rules: seq<Rule>, family: string, id: string)
    ensures id in FamilyList(rules, family) <==>
            exists r :: r in rules && r.id == id && r.family == family && r.overridden && !r.locked
  {
    if rules != [] {
      InFamilyList(rules[1..], family, id);
      assert forall r :: r in rules <==> r == rules[0] || r in rules[1..];
    }
  }

  lemma {:induction false} InWithout(ids: seq<string>, gone: string, id: string)
    ensures id in Without(ids, gone) <==> id in ids && id != gone
  {
    if ids != [] {
      InWithout(ids[1..], gone, id);
      assert forall x :: x in ids <==> x == ids[0] || x in ids[1..];
    }
  }

  lemma InToggled(rules: seq<Rule>, r: Rule, id: string)
    ensures id in Toggled(rules, r).ids <==>
            if r.id == id then !r.overridden else id in FamilyList(rules, r.family)
  {
    SortSorts(Edited(rules, r));
    assert Toggled(rules, r).ids == Sort(Edited(rules, r));
    assert id in Sort(Edited(rules, r)) <==> id in multiset(Sort(Edited(rules, r)));
    InWithout(FamilyList(rules, r.family), r.id, id);
  }

  /** What the list says of a rule of the family: as before, but for the toggled one. */
  lemma ListAfterToggle(rules: seq<Rule>, i: nat, j: nat)
    requires UniqueIds(rules) && i < |rules| && j < |rules| && !rules[i].locked
    requires rules[j].family == rules[i].family
    ensures rules[j].id in Toggled(rules, rules[i]).ids <==>
            if j == i then !rules[i].overridden else rules[j].overridden && !rules[j].locked
  {
    InToggled(rules, rules[i], rules[j].id);
    InFamilyList(rules, rules[i].family, rules[j].id);
    assert rules[j] in rules;
  }

  /** A save changes exactly the toggled rule. */
  lemma ToggleFlipsOneRule(rules: seq<Rule>, i: nat)
    requires UniqueIds(rules) && i < |rules| && !rules[i].locked
    ensures Echo(rules, Toggled(rules, rules[i])) == rules[i := rules[i].(overridden := !rules[i].overridden)]
  {
    var echoed := Echo(rules, Toggled(rules, rules[i]));
    forall j | 0 <= j < |rules|
      ensures echoed[j] == rules[i := rules[i].(overridden := !rules[i].overridden)][j]
    {
      if rules[j].family == rules[i].family && !rules[j].locked {
        ListAfterToggle(rules, i, j);
      }
    }
  }

  /** A saved list names no locked rule, and only rules of its family. */
  lemma NoLockedRuleIsSaved(rules: seq<Rule>, i: nat, id: string)
    requires UniqueIds(rules) && i < |rules| && !rules[i].locked && id in Toggled(rules, rules[i]).ids
    ensures exists j | 0 <= j < |rules| :: rules[j].id == id && rules[j].family == rules[i].family && !rules[j].locked
    ensures forall j | 0 <= j < |rules| && rules[j].locked :: rules[j].id != id
  {
    InToggled(rules, rules[i], id);
    InFamilyList(rules, rules[i].family, id);
    assert id == rules[i].id || id in FamilyList(rules, rules[i].family);
  }

  /** Toggling the same rule again saves the family's list as it was, and restores the rules. */
  lemma ToggleTwiceRestores(rules: seq<Rule>, i: nat)
    requires UniqueIds(rules) && i < |rules| && !rules[i].locked
    ensures var once := Echo(rules, Toggled(rules, rules[i]));
            && Echo(once, Toggled(once, once[i])) == rules
            && FamilyList(Echo(once, Toggled(once, once[i])), rules[i].family) == FamilyList(rules, rules[i].family)
            && forall id :: id in Toggled(once, once[i]).ids <==> id in FamilyList(rules, rules[i].family)
  {
    ToggleFlipsOneRule(rules, i);
    var once := Echo(rules, Toggled(rules, rules[i]));
    ToggleFlipsOneRule(once, i);
    forall id ensures id in Toggled(once, once[i]).ids <==> id in FamilyList(rules, rules[i].family) {
      SecondListIsFirst(rules, once, i, id);
    }
  }

  lemma SecondListIsFirst(rules: seq<Rule>, once: seq<Rule>, i: nat, id: string)
    requires UniqueIds(rules) && i < |rules| && !rules[i].locked
    requires once == rules[i := rules[i].(overridden := !rules[i].overridden)]
    ensures id in Toggled(once, once[i]).ids <==> id in FamilyList(rules, rules[i].family)
  {
    InToggled(once, once[i], id);
    if id == rules[i].id {
      ListAfterToggle(rules, i, i);
      InToggled(rules, rules[i], id);
      InOwnList(rules, i);
    } else {
      OthersListed(rules, i, once[i], rules[i].family, id);
    }
  }

  lemma InOwnList(rules: seq<Rule>, i: nat)
    requires UniqueIds(rules) && i < |rules| && !rules[i].locked
    ensures rules[i].id in FamilyList(rules, rules[i].family) <==> rules[i].overridden
  {
    InFamilyList(rules, rules[i].family, rules[i].id);
    assert rules[i] in rules;
  }

  lemma {:induction false} OthersListed(rules: seq<Rule>, i: nat, r: Rule, family: string, id: string)
    requires i < |rules| && r.id == rules[i].id != id
    ensures id in FamilyList(rules[i := r], family) <==> id in FamilyList(rules, family)
  {
    if i > 0 {
      assert rules[i := r][1..] == rules[1..][i - 1 := r];
      OthersListed(rules[1..], i - 1, r, family, id);
    } else {
      assert rules[0 := r][1..] == rules[1..];
    }
  }

  // ---------------------------------------------------------------- the last active rule

  ghost predicate ClassActive(rules: seq<Rule>, cls: string) {
    exists i | 0 <= i < |rules| :: ClassOf(rules[i]) == cls && IsActive(rules[i])
  }

  lemma {:induction false} InOfClass(rules: seq<Rule>, cls: string, r: Rule)
    ensures r in OfClass(rules, cls) <==> r in rules && ClassOf(r) == cls
  {
    if rules != [] {
      InOfClass(rules[..|rules| - 1], cls, r);
      assert rules == rules[..|rules| - 1] + [rules[|rules| - 1]];
    }
  }

  lemma {:induction false} InActive(rules: seq<Rule>, r: Rule)
    ensures r in Active(rules) <==> r in rules && IsActive(r)
  {
    if rules != [] {
      InActive(rules[1..], r);
      assert forall x :: x in rules <==> x == rules[0] || x in rules[1..];
    }
  }

  lemma {:induction false} ClassUnique(rules: seq<Rule>, cls: string)
    requires UniqueIds(rules)
    ensures UniqueIds(OfClass(rules, cls)) && UniqueIds(Active(OfClass(rules, cls)))
  {
    if rules != [] {
      var front, last := rules[..|rules| - 1], rules[|rules| - 1];
      ClassUnique(front, cls);
      forall r | r in OfClass(front, cls) ensures r.id != last.id {
        InOfClass(front, cls, r);
      }
    }
    ActiveUnique(OfClass(rules, cls));
  }

  lemma {:induction false} ActiveUnique(rules: seq<Rule>)
    requires UniqueIds(rules)
    ensures UniqueIds(Active(rules))
  {
    if rules != [] {
      ActiveUnique(rules[1..]);
      forall r | r in Active(rules[1..]) ensures r.id != rules[0].id {
        InActive(rules[1..], r);
      }
    }
  }

  /** The confirmation is asked exactly when the toggle would leave a class, one that has an
      active rule, with none. */
  lemma AskedIff(rules: seq<Rule>, i: nat)
    requires UniqueIds(rules) && i < |rules| && !rules[i].locked
    ensures TakesLast(rules, rules[i]) <==>
            exists cls :: ClassActive(rules, cls) && !ClassActive(Echo(rules, Toggled(rules, rules[i])), cls)
  {
    var r, cls := rules[i], ClassOf(rules[i]);
    var active := Active(OfClass(rules, cls));
    var echoed := Echo(rules, Toggled(rules, r));
    ToggleFlipsOneRule(rules, i);
    ClassUnique(rules, cls);
    forall x ensures x in active <==> x in rules && ClassOf(x) == cls && IsActive(x) {
      InOfClass(rules, cls, x);
      InActive(OfClass(rules, cls), x);
    }
    if TakesLast(rules, r) {
      LastGone(rules, i, active);
    } else if !r.overridden {
      assert r in active;
      var other := if active[0] == r then active[1] else active[0];
      assert other in active && other != r;
      var j :| 0 <= j < |rules| && rules[j] == other;
      assert echoed[j] == other;
      OthersKeep(rules, echoed, i, j);
    } else {
      assert forall j | 0 <= j < |rules| && IsActive(rules[j]) :: echoed[j] == rules[j];
    }
  }

  lemma LastGone(rules: seq<Rule>, i: nat, active: seq<Rule>)
    requires UniqueIds(rules) && i < |rules| && !rules[i].locked && !rules[i].overridden
    requires |active| == 1 && active[0].id == rules[i].id
    requires forall x :: x in active <==> x in rules && ClassOf(x) == ClassOf(rules[i]) && IsActive(x)
    ensures ClassActive(rules, ClassOf(rules[i]))
    ensures !ClassActive(Echo(rules, Toggled(rules, rules[i])), ClassOf(rules[i]))
  {
    ToggleFlipsOneRule(rules, i);
    var echoed := Echo(rules, Toggled(rules, rules[i]));
    forall j | 0 <= j < |rules| && ClassOf(rules[j]) == ClassOf(rules[i]) && IsActive(rules[j]) ensures j == i {
      assert rules[j] in active;
      assert rules[j].id == active[0].id;
    }
    assert !IsActive(echoed[i]);
  }

  lemma OthersKeep(rules: seq<Rule>, echoed: seq<Rule>, i: nat, j: nat)
    requires i < |rules| && j < |rules| && |echoed| == |rules| && i != j
    requires forall k | 0 <= k < |rules| && k != i :: echoed[k] == rules[k]
    requires IsActive(rules[j]) && ClassOf(rules[j]) == ClassOf(rules[i])
    ensures forall cls | ClassActive(rules, cls) :: ClassActive(echoed, cls)
  {
    forall cls | ClassActive(rules, cls) ensures ClassActive(echoed, cls) {
      var k :| 0 <= k < |rules| && ClassOf(rules[k]) == cls && IsActive(rules[k]);
      var m := if k == i then j else k;
      assert ClassOf(echoed[m]) == cls && IsActive(echoed[m]);
    }
  }

  // ---------------------------------------------------------------- runs

  /** A click on a rule's switch with the answer that would be given if asked. */
  datatype Click = Click(index: nat, yes: bool)

  function Step(rules: seq<Rule>, canEdit: bool, click: Click): seq<Rule> {
    if click.index >= |rules| then rules
    else
      match Toggle(rules, rules[click.index], canEdit, click.yes)
      case None => rules
      case Some(save) => Echo(rules, save)
  }

  function Run(rules: seq<Rule>, canEdit: bool, clicks: seq<Click>): seq<Rule>
    decreases |clicks|
  {
    if clicks == [] then rules else Run(Step(rules, canEdit, clicks[0]), canEdit, clicks[1..])
  }

  lemma StepFlipsAtMostOne(rules: seq<Rule>, canEdit: bool, click: Click)
    requires UniqueIds(rules)
    ensures var next := Step(rules, canEdit, click);
            && UniqueIds(next) && |next| == |rules|
            && (next == rules || (&& click.index < |rules| && canEdit && !rules[click.index].locked
                                  && next == rules[click.index := rules[click.index].(overridden := !rules[click.index].overridden)]))
            && (!click.yes ==> forall cls | ClassActive(rules, cls) :: ClassActive(next, cls))
  {
    if click.index < |rules| && canEdit && !rules[click.index].locked {
      ToggleFlipsOneRule(rules, click.index);
      AskedIff(rules, click.index);
    }
  }

  ghost predicate LosesNoClass(rules: seq<Rule>, next: seq<Rule>) {
    forall cls | ClassActive(rules, cls) :: ClassActive(next, cls)
  }

  /** A click on an unlocked rule that may be edited flips it, unless that would leave a class
      without an active rule and the answer is no; any other click changes nothing. */
  lemma StepFlipsIff(rules: seq<Rule>, canEdit: bool, click: Click)
    requires UniqueIds(rules)
    ensures Step(rules, canEdit, click) ==
            if click.index < |rules| && canEdit && !rules[click.index].locked then
              var flipped := rules[click.index := rules[click.index].(overridden := !rules[click.index].overridden)];
              if click.yes || LosesNoClass(rules, flipped) then flipped else rules
            else rules
  {
    if click.index < |rules| && canEdit && !rules[click.index].locked {
      ToggleFlipsOneRule(rules, click.index);
      AskedIff(rules, click.index);
    }
  }

  /** A rule without a class counts for "confirmable_destructive". */
  lemma UnclassifiedCounts(rules: seq<Rule>)
    ensures ClassActive(rules, "confirmable_destructive") <==>
            exists i | 0 <= i < |rules| ::
              && !rules[i].overridden && !rules[i].locked
              && (rules[i].verdictClass == "" || rules[i].verdictClass == "confirmable_destructive")
    ensures !ClassActive(rules, "")
  {
  }

  /** A saved list is in order, names no rule twice, and goes to the toggled rule's family. */
  lemma SavedListIsSorted(rules: seq<Rule>, i: nat)
    requires UniqueIds(rules) && i < |rules| && !rules[i].locked
    ensures var save := Toggled(rules, rules[i]);
            save.family == rules[i].family && Sorted(save.ids) && Distinct(save.ids)
  {
    var r := rules[i];
    FamilyListDistinct(rules, r.family);
    InOwnList(rules, i);
    if r.overridden {
      WithoutDistinct(FamilyList(rules, r.family), r.id);
    } else {
      DistinctConcat(FamilyList(rules, r.family), [r.id]);
    }
    SortSorts(Edited(rules, r));
    SortKeepsDistinct(Edited(rules, r));
  }

  lemma {:induction false} FamilyListDistinct(rules: seq<Rule>, family: string)
    requires UniqueIds(rules)
    ensures Distinct(FamilyList(rules, family))
  {
    if rules != [] {
      FamilyListDistinct(rules[1..], family);
      InFamilyList(rules[1..], family, rules[0].id);
      DistinctConcat([rules[0].id], FamilyList(rules[1..], family));
    }
  }

  lemma {:induction false} WithoutDistinct(ids: seq<string>, id: string)
    requires Distinct(ids)
    ensures Distinct(Without(ids, id))
  {
    if ids != [] {
      WithoutDistinct(ids[1..], id);
      InWithout(ids[1..], id, ids[0]);
      assert ids[0] !in ids[1..];
      DistinctConcat([ids[0]], Without(ids[1..], id));
    }
  }

  /** In any run locked rules stay as they were, and without a yes to the confirmation no class
      loses its last active rule. */
  lemma {:induction false} NoClassIsLostWithoutYes(rules: seq<Rule>, canEdit: bool, clicks: seq<Click>)
    requires UniqueIds(rules)
    ensures var end := Run(rules, canEdit, clicks);
            && UniqueIds(end) && |end| == |rules|
            && (forall i | 0 <= i < |rules| && (rules[i].locked || !canEdit) :: end[i] == rules[i])
            && ((forall click | click in clicks :: !click.yes) ==>
                  forall cls | ClassActive(rules, cls) :: ClassActive(end, cls))
    decreases |clicks|
  {
    if clicks != [] {
      StepFlipsAtMostOne(rules, canEdit, clicks[0]);
      NoClassIsLostWithoutYes(Step(rules, canEdit, clicks[0]), canEdit, clicks[1..]);
    }
  }

  // ---------------------------------------------------------------- the component

  method ByClass(rules: seq<Rule>) returns (grouped: map<string, seq<Rule>>)
    ensures forall cls :: (if cls in grouped then grouped[cls] else []) == OfClass(rules, cls)
  {
    grouped := map[];
    for i := 0 to |rules|
      invariant forall cls :: (if cls in grouped then grouped[cls] else []) == OfClass(rules[..i], cls)
    {
      var cls := ClassOf(rules[i]);
      assert rules[..i + 1][..i] == rules[..i];
      grouped := grouped[cls := (if cls in grouped then grouped[cls] else []) + [rules[i]]];
    }
    assert rules[..|rules|] == rules;
  }

  class JudgeOverridePanel {
    var rules: seq<Rule>
    var saves: seq<Save>

    constructor (rules: seq<Rule>)
      ensures this.rules == rules && saves == []
    {
      this.rules, saves := rules, [];
    }

    /** `toggleRule`; `yes` is what the operator would answer. */
    method ToggleRule(rule: Rule, canEdit: bool, yes: bool) returns (asked: bool)
      modifies this`saves
      ensures asked == (canEdit && !rule.locked && TakesLast(rules, rule))
      ensures saves == old(saves) + match Toggle(rules, rule, canEdit, yes) case None => [] case Some(save) => [save]
    {
      asked := false;
      if !canEdit || rule.locked {
        return;
      }
      var grouped := ByClass(rules);
      var cls := ClassOf(rule);
      var activeInClass := Active(if cls in grouped then grouped[cls] else []);
      if !rule.overridden && |activeInClass| == 1 && activeInClass[0].id == rule.id {
        asked := true;
        if !yes {
          return;
        }
      }
      var familyOverrides := FamilyList(rules, rule.family);
      if rule.overridden {
        familyOverrides := Without(familyOverrides, rule.id);
      } else {
        familyOverrides := familyOverrides + [rule.id];
      }
      saves := saves + [Save(rule.family, Sort(familyOverrides))];
    }
  }
}
