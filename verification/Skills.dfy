/** Skill lists: deltas applied to a list, and a run-time request narrowing an operator's list. */
module Skills {
  import opened Prelude

  /** A parsed JSON value, as far as a skills request looks into one. */
  datatype Value = Null | Text(text: string) | List(items: seq<Value>) | Object(fields: map<string, Value>) | Other

  datatype Removal = Everything | Names(names: seq<string>)
  datatype Delta = Delta(add: seq<string>, remove: Removal)

  function EntryName(entry: Value): Option<string> {
    match entry
    case Text(text) => Some(text)
    case Object(fields) =>
      if "name" in fields && fields["name"].Text? && fields["name"].text != "" then Some(fields["name"].text) else None
    case _ => None
  }

  /** The names of a list of entries; None as soon as one entry names no skill. */
  function EntryNames(entries: seq<Value>): Option<seq<string>> {
    if entries == [] then Some([]) else
      var first := EntryName(entries[0]);
      var rest := EntryNames(entries[1..]);
      if first.Some? && rest.Some? then Some([first.value] + rest.value) else None
  }

  /** A request as a delta; None where the source raises ValueError. */
  function NormalizeDelta(value: Value): Option<Delta> {
    match value
    case Null => Some(Delta([], Names([])))
    case List(items) =>
      var names := EntryNames(items);
      if names.Some? then Some(Delta(names.value, Everything)) else None
    case Object(fields) =>
      var add := if "add" in fields then fields["add"] else List([]);
      var remove := if "remove" in fields then fields["remove"] else List([]);
      if !add.List? || !(remove == Text("*") || remove.List?) then None
      else
        var adds := EntryNames(add.items);
        var removes := if remove.List? then EntryNames(remove.items) else Some([]);
        if adds.None? || removes.None? then None
        else Some(Delta(adds.value, if remove.List? then Names(removes.value) else Everything))
    case _ => None
  }

  predicate Removes(d: Delta, name: string) {
    d.remove.Everything? || name in d.remove.names
  }

  ghost predicate NoDuplicates(s: seq<string>) {
    forall i, j | 0 <= i < j < |s| :: s[i] != s[j]
  }

  // ---- Applying deltas ----------------------------------------------------

  function Without(s: seq<string>, d: Delta): seq<string> {
    if s == [] then [] else
      Without(s[..|s| - 1], d) + (if Removes(d, s[|s| - 1]) then [] else [s[|s| - 1]])
  }

  function AppendNew(current: seq<string>, names: seq<string>): seq<string> {
    if names == [] then current else
      var before := AppendNew(current, names[..|names| - 1]);
      if names[|names| - 1] in before then before else before + [names[|names| - 1]]
  }

  function Apply(current: seq<string>, d: Delta): seq<string> {
    AppendNew(Without(current, d), d.add)
  }

  /** Every delta in turn; None when one of them is malformed. */
  function ApplyAll(current: seq<string>, deltas: seq<Value>): Option<seq<string>> {
    if deltas == [] then Some(current) else
      var before := ApplyAll(current, deltas[..|deltas| - 1]);
      var d := NormalizeDelta(deltas[|deltas| - 1]);
      if before.Some? && d.Some? then Some(Apply(before.value, d.value)) else None
  }

  function Effective(base: seq<string>, deltas: seq<Value>): Option<seq<string>> {
    ApplyAll(AppendNew([], base), deltas)
  }

  lemma {:induction false} WithoutMembers(s: seq<string>, d: Delta)
    ensures forall x :: x in Without(s, d) <==> x in s && !Removes(d, x)
    ensures NoDuplicates(s) ==> NoDuplicates(Without(s, d))
  {
    if s != [] {
      var init, last := s[..|s| - 1], s[|s| - 1];
      assert s == init + [last];
      WithoutMembers(init, d);
    }
  }

  lemma {:induction false} AppendNewMembers(current: seq<string>, names: seq<string>)
    ensures forall x :: x in AppendNew(current, names) <==> x in current || x in names
    ensures NoDuplicates(AppendNew(current, names)) <==> NoDuplicates(current)
    ensures current <= AppendNew(current, names)
  {
    if names != [] {
      var init, last := names[..|names| - 1], names[|names| - 1];
      assert names == init + [last];
      AppendNewMembers(current, init);
      var before := AppendNew(current, init);
      if last !in before {
        AppendKeepsDistinct(before, last);
      }
    }
  }

  lemma {:induction false} AppendNewSelf(s: seq<string>)
    requires NoDuplicates(s)
    ensures AppendNew([], s) == s
  {
    if s != [] {
      var init := s[..|s| - 1];
      assert s == init + [s[|s| - 1]];
      AppendNewSelf(init);
    }
  }

  lemma {:induction false} ApplyAllSplit(current: seq<string>, first: seq<Value>, second: seq<Value>)
    ensures ApplyAll(current, first + second)
         == var mid := ApplyAll(current, first);
            if mid.Some? then ApplyAll(mid.value, second) else None
  {
    if second == [] {
      assert first + second == first;
    } else {
      hide ApplyAll, Apply, NormalizeDelta;
      var init, last := second[..|second| - 1], second[|second| - 1];
      ApplyAllSplit(current, first, init);
      assert first + second == (first + init) + [last] && second == init + [last];
      ApplyAllStep(current, first + init, last);
      if ApplyAll(current, first).Some? {
        ApplyAllStep(ApplyAll(current, first).value, init, last);
      }
    }
  }

  lemma ApplyAllStep(current: seq<string>, deltas: seq<Value>, last: Value)
    ensures ApplyAll(current, deltas + [last])
         == var before, d := ApplyAll(current, deltas), NormalizeDelta(last);
            if before.Some? && d.Some? then Some(Apply(before.value, d.value)) else None
  {
    hide Apply, NormalizeDelta;
    assert (deltas + [last])[..|deltas|] == deltas;
  }

  lemma {:induction false} ApplyAllNoDuplicates(current: seq<string>, deltas: seq<Value>)
    requires NoDuplicates(current)
    ensures ApplyAll(current, deltas).Some? ==> NoDuplicates(ApplyAll(current, deltas).value)
  {
    if deltas != [] {
      ApplyAllNoDuplicates(current, deltas[..|deltas| - 1]);
      var before, d := ApplyAll(current, deltas[..|deltas| - 1]), NormalizeDelta(deltas[|deltas| - 1]);
      if before.Some? && d.Some? {
        WithoutMembers(before.value, d.value);
        AppendNewMembers(Without(before.value, d.value), d.value.add);
      }
    }
  }

  /** Many deltas at once are the deltas in two batches, each batch's result taken as the next one's base. */
  lemma EffectiveComposes(base: seq<string>, first: seq<Value>, second: seq<Value>)
    ensures Effective(base, first + second)
         == var mid := Effective(base, first);
            if mid.Some? then Effective(mid.value, second) else None
    ensures Effective(base, first).Some? ==> NoDuplicates(Effective(base, first).value)
  {
    AppendNewMembers([], base);
    ApplyAllSplit(AppendNew([], base), first, second);
    ApplyAllNoDuplicates(AppendNew([], base), first);
    if Effective(base, first).Some? {
      AppendNewSelf(Effective(base, first).value);
    }
  }

  predicate Adds(delta: Value, name: string) {
    var d := NormalizeDelta(delta);
    d.Some? && name in d.value.add
  }

  /** The delta removes the name and does not add it again. */
  predicate Drops(delta: Value, name: string) {
    var d := NormalizeDelta(delta);
    d.Some? && Removes(d.value, name) && name !in d.value.add
  }

  /** Delta k adds the name, or k is -1 and the base holds it; and no later delta drops it. */
  ghost predicate LastWord(base: seq<string>, deltas: seq<Value>, k: int, name: string) {
    && -1 <= k < |deltas|
    && (if k == -1 then name in base else Adds(deltas[k], name))
    && forall j | k < j < |deltas| :: !Drops(deltas[j], name)
  }

  lemma ApplyMembers(current: seq<string>, delta: Value, name: string)
    requires NormalizeDelta(delta).Some?
    ensures name in Apply(current, NormalizeDelta(delta).value)
       <==> Adds(delta, name) || (name in current && !Drops(delta, name))
  {
    var d := NormalizeDelta(delta).value;
    WithoutMembers(current, d);
    AppendNewMembers(Without(current, d), d.add);
  }

  lemma LastWordStep(base: seq<string>, deltas: seq<Value>, init: seq<Value>, name: string)
    requires deltas != [] && init == deltas[..|deltas| - 1]
    ensures (exists k :: LastWord(base, deltas, k, name))
       <==> Adds(deltas[|deltas| - 1], name)
            || ((exists k :: LastWord(base, init, k, name)) && !Drops(deltas[|deltas| - 1], name))
  {
    var last := |deltas| - 1;
    if Adds(deltas[last], name) {
      assert LastWord(base, deltas, last, name);
    }
    if k :| LastWord(base, deltas, k, name) && !Adds(deltas[last], name) {
      assert LastWord(base, init, k, name);
    }
    if k :| LastWord(base, init, k, name) && !Drops(deltas[last], name) {
      assert forall j | k < j < |deltas| :: j < last ==> deltas[j] == init[j];
      assert LastWord(base, deltas, k, name);
    }
  }

  /** A name is in the effective list exactly when the base or a delta introduces it and nothing later drops it. */
  lemma {:induction false} EffectiveMembers(base: seq<string>, deltas: seq<Value>, name: string)
    requires Effective(base, deltas).Some?
    ensures name in Effective(base, deltas).value <==> exists k :: LastWord(base, deltas, k, name)
  {
    if deltas == [] {
      AppendNewMembers([], base);
      assert name in base ==> LastWord(base, deltas, -1, name);
    } else {
      var init := deltas[..|deltas| - 1];
      EffectiveMembers(base, init, name);
      ApplyMembers(Effective(base, init).value, deltas[|deltas| - 1], name);
      LastWordStep(base, deltas, init, name);
    }
  }

  /** The effective list, its deltas applied in order. */
  method EffectiveSkills(base: seq<string>, deltas: seq<Value>) returns (r: Option<seq<string>>)
    ensures r == Effective(base, deltas)
  {
    var current := AddNew([], base);
    for i := 0 to |deltas|
      invariant ApplyAll(AppendNew([], base), deltas[..i]) == Some(current)
    {
      var delta := NormalizeDelta(deltas[i]);
      assert deltas[..i + 1][..i] == deltas[..i];
      if delta.None? {
        MalformedStays(AppendNew([], base), deltas, i);
        return None;
      }
      current := Keep(current, delta.value);
      current := AddNew(current, delta.value.add);
    }
    assert deltas[..|deltas|] == deltas;
    r := Some(current);
  }

  lemma MalformedStays(current: seq<string>, deltas: seq<Value>, i: nat)
    requires i < |deltas| && NormalizeDelta(deltas[i]).None?
    ensures ApplyAll(current, deltas) == None
  {
    if i < |deltas| - 1 {
      MalformedStays(current, deltas[..|deltas| - 1], i);
    }
  }

  method AddNew(start: seq<string>, names: seq<string>) returns (current: seq<string>)
    ensures current == AppendNew(start, names)
  {
    current := start;
    for i := 0 to |names|
      invariant current == AppendNew(start, names[..i])
    {
      assert names[..i + 1][..i] == names[..i];
      if names[i] !in current {
        current := current + [names[i]];
      }
    }
    assert names[..|names|] == names;
  }

  method Keep(skills: seq<string>, d: Delta) returns (current: seq<string>)
    ensures current == Without(skills, d)
  {
    current := [];
    for i := 0 to |skills|
      invariant current == Without(skills[..i], d)
    {
      assert skills[..i + 1][..i] == skills[..i];
      if !Removes(d, skills[i]) {
        current := current + [skills[i]];
      }
    }
    assert skills[..|skills|] == skills;
  }

  // ---- Narrowing ----------------------------------------------------------

  datatype Narrowed = Narrowed(skills: seq<string>, hidden: bool, notGranted: seq<string>)

  predicate IsRepositorySkill(name: string) {
    ':' !in name
  }

  /** What stands before the first colon; "" for a repository skill. */
  function SkillSource(name: string): string {
    if ':' in name then BeforeColon(name) else ""
  }

  function BeforeColon(name: string): string
    requires ':' in name
  {
    if name[0] == ':' then "" else [name[0]] + BeforeColon(name[1..])
  }

  predicate LoadsSource(operator: seq<string>, source: string) {
    source != "" && exists i | 0 <= i < |operator| :: SkillSource(operator[i]) == source
  }

  /** The names beyond the operator's list that a request may be given. */
  predicate MayAdd(operator: seq<string>, mayAdd: set<string>, name: string) {
    name in mayAdd && LoadsSource(operator, SkillSource(name))
  }

  predicate Addable(operator: seq<string>, mayAdd: set<string>, name: string) {
    name in operator || (operator == [] && IsRepositorySkill(name)) || MayAdd(operator, mayAdd, name)
  }

  /** Whether an agent with this list loads the skill: an empty list that is not hidden filters nothing of the repository. */
  predicate Loads(skills: seq<string>, hidden: bool, name: string) {
    !hidden && (if skills == [] then IsRepositorySkill(name) else name in skills)
  }

  /** What a request by itself asks for and keeps, before the operator's list limits it. */
  ghost predicate Granted(operator: seq<string>, d: Delta, mayAdd: set<string>, name: string) {
    if operator == [] && !d.remove.Everything? then IsRepositorySkill(name)
    else (name in operator && !Removes(d, name)) || (name in d.add && Addable(operator, mayAdd, name))
  }

  /** The names of a request's adds that are granted, or that are not, in their order. */
  function Judged(operator: seq<string>, mayAdd: set<string>, add: seq<string>, granted: bool): seq<string> {
    if add == [] then [] else
      var last := add[|add| - 1];
      Judged(operator, mayAdd, add[..|add| - 1], granted) + (if Addable(operator, mayAdd, last) == granted then [last] else [])
  }

  lemma {:induction false} JudgedMembers(operator: seq<string>, mayAdd: set<string>, add: seq<string>, granted: bool)
    ensures forall x :: x in Judged(operator, mayAdd, add, granted) <==> x in add && Addable(operator, mayAdd, x) == granted
  {
    if add != [] {
      JudgedMembers(operator, mayAdd, add[..|add| - 1], granted);
      assert add == add[..|add| - 1] + [add[|add| - 1]];
    }
  }

  /** The operator's list narrowed by a request. */
  method NarrowedSkills(operator: seq<string>, request: Value, mayAdd: set<string>) returns (r: Narrowed)
    ensures NormalizeDelta(request).None? ==> r == Narrowed([], true, [])
    ensures NormalizeDelta(request).Some? ==> Narrows(operator, NormalizeDelta(request).value, mayAdd, r)
  {
    var parsed := NormalizeDelta(request);
    if parsed.None? {
      return Narrowed([], true, []);
    }
    var delta := parsed.value;
    var current, refused: seq<string> := [], [];
    if operator == [] && !delta.remove.Everything? {
      for i := 0 to |delta.add|
        invariant refused == Judged(operator, mayAdd, delta.add[..i], false)
      {
        assert delta.add[..i + 1][..i] == delta.add[..i];
        if !Addable(operator, mayAdd, delta.add[i]) {
          refused := refused + [delta.add[i]];
        }
      }
      assert delta.add[..|delta.add|] == delta.add;
      return Narrowed([], false, refused);
    }
    current := Keep(operator, delta);
    WithoutMembers(operator, delta);
    current, refused := Grant(operator, current, delta.add, mayAdd);
    r := Narrowed(current, current == [], refused);
  }

  /** The adds of a request, each granted or refused. */
  method Grant(operator: seq<string>, kept: seq<string>, add: seq<string>, mayAdd: set<string>)
      returns (current: seq<string>, refused: seq<string>)
    requires forall x | x in kept :: x in operator
    ensures current == AppendNew(kept, Judged(operator, mayAdd, add, true))
    ensures refused == Judged(operator, mayAdd, add, false)
  {
    hide Addable, AppendNew, Judged;
    GrantStart(operator, kept, add, mayAdd);
    current, refused := kept, [];
    for i := 0 to |add|
      invariant current == AppendNew(kept, Judged(operator, mayAdd, add[..i], true))
      invariant refused == Judged(operator, mayAdd, add[..i], false)
    {
      var name := add[i];
      GrantStep(operator, kept, add, mayAdd, i);
      if name !in current {
        if Addable(operator, mayAdd, name) {
          current := current + [name];
        } else {
          refused := refused + [name];
        }
      }
    }
    assert add[..|add|] == add;
  }

  /** A name already granted or kept is one that may be: nothing that is skipped should have been refused. */
  lemma GrantStep(operator: seq<string>, kept: seq<string>, add: seq<string>, mayAdd: set<string>, i: nat)
    requires i < |add| && forall x | x in kept :: x in operator
    ensures var current := AppendNew(kept, Judged(operator, mayAdd, add[..i], true));
            && AppendNew(kept, Judged(operator, mayAdd, add[..i + 1], true))
               == (if add[i] !in current && Addable(operator, mayAdd, add[i]) then current + [add[i]] else current)
            && (add[i] in current ==> Addable(operator, mayAdd, add[i]))
    ensures Judged(operator, mayAdd, add[..i + 1], false)
         == Judged(operator, mayAdd, add[..i], false) + (if Addable(operator, mayAdd, add[i]) then [] else [add[i]])
  {
    var names := Judged(operator, mayAdd, add[..i], true);
    assert add[..i + 1][..i] == add[..i];
    assert (names + [add[i]])[..|names|] == names && names + [] == names;
    AppendNewMembers(kept, names);
    JudgedMembers(operator, mayAdd, add[..i], true);
  }

  lemma GrantStart(operator: seq<string>, kept: seq<string>, add: seq<string>, mayAdd: set<string>)
    ensures AppendNew(kept, Judged(operator, mayAdd, add[..0], true)) == kept && Judged(operator, mayAdd, add[..0], false) == []
  {
  }

  lemma AppendKeepsDistinct(s: seq<string>, name: string)
    requires name !in s
    ensures NoDuplicates(s + [name]) <==> NoDuplicates(s)
  {
    assert forall i | 0 <= i < |s| :: (s + [name])[i] == s[i];
  }

  /** A narrowed list: what the request keeps of the operator's, then what it adds and is granted; hidden when that leaves
      nothing. A list that filters nothing stays one unless the request replaces it. */
  ghost predicate Narrows(operator: seq<string>, d: Delta, mayAdd: set<string>, r: Narrowed) {
    && r.notGranted == Judged(operator, mayAdd, d.add, false)
    && (if operator == [] && !d.remove.Everything? then r.skills == [] && !r.hidden
        else r.skills == AppendNew(Without(operator, d), Judged(operator, mayAdd, d.add, true)) && r.hidden == (r.skills == []))
  }

  /** What a narrowed list loads, name by name; and it is free of duplicates exactly when what it keeps is. */
  lemma NarrowedLoads(operator: seq<string>, d: Delta, mayAdd: set<string>, r: Narrowed)
    requires Narrows(operator, d, mayAdd, r)
    ensures forall x :: Loads(r.skills, r.hidden, x) <==> Granted(operator, d, mayAdd, x)
    ensures forall x :: x in r.notGranted <==> x in d.add && !Addable(operator, mayAdd, x)
    ensures operator != [] || d.remove.Everything? ==> (NoDuplicates(r.skills) <==> NoDuplicates(Without(operator, d)))
  {
    WithoutMembers(operator, d);
    JudgedMembers(operator, mayAdd, d.add, true);
    JudgedMembers(operator, mayAdd, d.add, false);
    AppendNewMembers(Without(operator, d), Judged(operator, mayAdd, d.add, true));
    if operator != [] || d.remove.Everything? {
      forall x
        ensures Loads(r.skills, r.hidden, x) <==> Granted(operator, d, mayAdd, x)
      {
        assert x in r.skills <==> Granted(operator, d, mayAdd, x);
      }
    }
  }

  /** Narrowing never widens: whatever the request, a skill that loads after it loaded before it, or is one the operator
      lets triage add from a source the list already loads; no source is gained; and the list stays duplicate-free. */
  lemma NarrowingNeverWidens(operator: seq<string>, request: Value, mayAdd: set<string>, r: Narrowed, name: string)
    requires NormalizeDelta(request).None? ==> r == Narrowed([], true, [])
    requires NormalizeDelta(request).Some? ==> Narrows(operator, NormalizeDelta(request).value, mayAdd, r)
    ensures Loads(r.skills, r.hidden, name) ==> Loads(operator, false, name) || MayAdd(operator, mayAdd, name)
    ensures Loads(r.skills, r.hidden, name) && SkillSource(name) != "" ==> LoadsSource(operator, SkillSource(name))
    ensures NoDuplicates(operator) ==> NoDuplicates(r.skills)
  {
    var d := NormalizeDelta(request);
    if d.Some? {
      WithoutMembers(operator, d.value);
      NarrowedLoads(operator, d.value, mayAdd, r);
      assert Loads(r.skills, r.hidden, name) <==> Granted(operator, d.value, mayAdd, name);
    }
  }

  /** The list an operator's definition and template steps give is duplicate-free, and so is every list narrowed from it. */
  lemma NarrowedFromDeltas(base: seq<string>, deltas: seq<Value>, request: Value, mayAdd: set<string>, r: Narrowed)
    requires Effective(base, deltas).Some?
    requires NormalizeDelta(request).None? ==> r == Narrowed([], true, [])
    requires NormalizeDelta(request).Some? ==> Narrows(Effective(base, deltas).value, NormalizeDelta(request).value, mayAdd, r)
    ensures NoDuplicates(r.skills)
    ensures forall name | Loads(r.skills, r.hidden, name) ::
              Loads(Effective(base, deltas).value, false, name) || MayAdd(Effective(base, deltas).value, mayAdd, name)
  {
    EffectiveComposes(base, deltas, []);
    var operator := Effective(base, deltas).value;
    NarrowingNeverWidens(operator, request, mayAdd, r, "");
    forall name | Loads(r.skills, r.hidden, name)
      ensures Loads(operator, false, name) || MayAdd(operator, mayAdd, name)
    {
      NarrowingNeverWidens(operator, request, mayAdd, r, name);
    }
  }
}
