/**
 * The template store: user templates may be created, edited, deleted and
 * copied; System templates are guarded against the user operations and
 * are managed by their own operations and by the preset initialisation.
 * Template names are unique (the store's unique index on Name), and so are
 * ids.
 */
module Templates {
  import opened Wrappers
  import opened Text
  import opened Models
  import opened Sequences
  import opened Presets

  /** Why a write was refused. */
  datatype StoreError =
    | DuplicateKey(index: string)  // a unique index, "_id" or "Name", already holds the value
    | NotFound(message: string)    // the source of a copy does not exist

  const SourceMissing: string := "源模板不存在"
  const CopySuffix: string := " (副本)"

  predicate NameTaken(m: map<nat, CommandTemplate>, name: string) {
    exists k :: k in m && m[k].name == name
  }

  /** Some template other than the one stored under `id` already has this name. */
  predicate NameTakenByOther(m: map<nat, CommandTemplate>, name: string, id: nat) {
    exists k :: k in m && k != id && m[k].name == name
  }

  predicate UniqueNames(m: map<nat, CommandTemplate>) {
    forall a, b :: a in m && b in m && m[a].name == m[b].name ==> a == b
  }

  predicate HasSystem(m: map<nat, CommandTemplate>) {
    exists k :: k in m && m[k].templateType == System
  }

  /** The user-owned part of a store. */
  function UserPart(m: map<nat, CommandTemplate>): (r: map<nat, CommandTemplate>)
    ensures forall k :: k in r <==> k in m && m[k].templateType == User
    ensures forall k :: k in r ==> r[k] == m[k]
  {
    map k | k in m && m[k].templateType == User :: m[k]
  }

  // ---------------------------------------------------------------------------
  // The store's writes, as functions of the store
  // ---------------------------------------------------------------------------

  /** `Insert`: rejected when the id or the name is already present. */
  function InsertInto(m: map<nat, CommandTemplate>, t: CommandTemplate): (r: Result<map<nat, CommandTemplate>, StoreError>)
    ensures t.id in m ==> r == Failure(DuplicateKey("_id"))
    ensures t.id !in m && NameTaken(m, t.name) ==> r == Failure(DuplicateKey("Name"))
    ensures t.id !in m && !NameTaken(m, t.name) ==> r == Success(m[t.id := t])
  {
    if t.id in m then Failure(DuplicateKey("_id"))
    else if NameTaken(m, t.name) then Failure(DuplicateKey("Name"))
    else Success(m[t.id := t])
  }

  /** `Update` of a stored id: rejected when another template has the new name. */
  function UpdateIn(m: map<nat, CommandTemplate>, t: CommandTemplate): (r: Result<map<nat, CommandTemplate>, StoreError>)
    requires t.id in m
    ensures NameTakenByOther(m, t.name, t.id) ==> r == Failure(DuplicateKey("Name"))
    ensures !NameTakenByOther(m, t.name, t.id) ==> r == Success(m[t.id := t])
  {
    if NameTakenByOther(m, t.name, t.id) then Failure(DuplicateKey("Name")) else Success(m[t.id := t])
  }

  /** An accepted insert keeps names unique. */
  lemma InsertKeepsUnique(m: map<nat, CommandTemplate>, t: CommandTemplate)
    requires UniqueNames(m)
    requires InsertInto(m, t).Success?
    ensures UniqueNames(InsertInto(m, t).value)
    ensures InsertInto(m, t).value.Keys == m.Keys + {t.id}
  {
  }

  /** What is left after deleting exactly the ids of the System templates is the User part. */
  lemma RemainderIsUserPart(rest: map<nat, CommandTemplate>, m: map<nat, CommandTemplate>, ids: seq<nat>)
    requires forall k :: k in ids <==> k in m && m[k].templateType == System
    requires forall k :: k in rest <==> k in m && k !in ids
    requires forall k :: k in rest ==> rest[k] == m[k]
    ensures rest == UserPart(m)
  {
    assert rest.Keys == UserPart(m).Keys;
  }

  /** An accepted update keeps names unique and the set of ids. */
  lemma UpdateKeepsUnique(m: map<nat, CommandTemplate>, t: CommandTemplate)
    requires UniqueNames(m) && t.id in m
    requires UpdateIn(m, t).Success?
    ensures UniqueNames(UpdateIn(m, t).value)
    ensures UpdateIn(m, t).value.Keys == m.Keys
  {
  }

  /** The templates `ts` stored under consecutive ids from `base`. */
  function Place(ts: seq<CommandTemplate>, base: nat): (r: map<nat, CommandTemplate>)
    ensures forall k :: k in r <==> base <= k < base + |ts|
    ensures forall i :: 0 <= i < |ts| ==> r[base + i] == ts[i]
  {
    if ts == [] then map[]
    else Place(ts[..|ts| - 1], base)[base + |ts| - 1 := ts[|ts| - 1]]
  }

  lemma PlaceStep(ts: seq<CommandTemplate>, base: nat, i: nat)
    requires i < |ts|
    ensures Place(ts[..i + 1], base) == Place(ts[..i], base)[base + i := ts[i]]
  {
    assert ts[..i + 1][..i] == ts[..i];
  }

  /** While staging distinct-named templates, a clash with the next name is a clash with the store. */
  lemma StagedClash(m: map<nat, CommandTemplate>, ts: seq<CommandTemplate>, base: nat, i: nat)
    requires i < |ts|
    requires forall k :: k in m ==> k < base
    requires forall a, b :: 0 <= a < b < |ts| ==> ts[a].name != ts[b].name
    requires NameTaken(m + Place(ts[..i], base), ts[i].name)
    ensures NameTaken(m, ts[i].name)
  {
    var staged := m + Place(ts[..i], base);
    var p := Place(ts[..i], base);
    forall q | q in p
      ensures p[q].name != ts[i].name
    {
      var j := q - base;
      assert p[base + j] == ts[..i][j] == ts[j];
    }
    var k :| k in staged && staged[k].name == ts[i].name;
    assert k !in p;
    assert m[k] == staged[k];
  }

  /** Staging the next template extends the staged store by exactly that template. */
  lemma StagedExtend(m: map<nat, CommandTemplate>, ts: seq<CommandTemplate>, base: nat, i: nat)
    requires i < |ts|
    requires ts[i].id == base + i
    ensures (m + Place(ts[..i], base))[ts[i].id := ts[i]] == m + Place(ts[..i + 1], base)
  {
    PlaceStep(ts, base, i);
    var p := Place(ts[..i], base);
    assert (m + p)[base + i := ts[i]] == m + p[base + i := ts[i]];
  }

  /** Staging one more template whose name is free keeps the staged names unique. */
  lemma StagedStep(m: map<nat, CommandTemplate>, ts: seq<CommandTemplate>, base: nat, i: nat,
                   staged: map<nat, CommandTemplate>)
    requires i < |ts|
    requires forall k :: k in m ==> k < base
    requires ts[i].id == base + i
    requires staged == m + Place(ts[..i], base) && UniqueNames(staged)
    requires !NameTaken(staged, ts[i].name)
    ensures UniqueNames(staged[ts[i].id := ts[i]])
    ensures !NameTaken(m, ts[i].name)
  {
    assert ts[i].id !in staged;
    InsertKeepsUnique(staged, ts[i]);
    assert forall k :: k in m ==> k in staged && staged[k] == m[k];
  }

  /** Every staged record sits under its own id, below the advanced counter. */
  lemma StagedIds(m: map<nat, CommandTemplate>, ts: seq<CommandTemplate>, base: nat)
    requires forall k :: k in m ==> k < base && m[k].id == k
    requires forall j :: 0 <= j < |ts| ==> ts[j].id == base + j
    ensures var staged := m + Place(ts, base);
      forall k :: k in staged ==> k < base + |ts| && staged[k].id == k
  {
    var p := Place(ts, base);
    forall k | k in p
      ensures p[k].id == k
    {
      var j := k - base;
      assert p[base + j] == ts[j];
    }
  }

  /** A bulk insert is rejected when one of the new names is already present. */
  predicate BulkClash(m: map<nat, CommandTemplate>, ts: seq<CommandTemplate>) {
    exists i :: 0 <= i < |ts| && NameTaken(m, ts[i].name)
  }

  // ---------------------------------------------------------------------------
  // The service's rules, as functions of its records
  // ---------------------------------------------------------------------------

  /**
   * `CopyTemplateAsync`'s new record: a User template, one place later (the
   * 32-bit SortOrder wrapping at its largest value), copying every other field.
   */
  function CopyOf(source: CommandTemplate, id: nat, newName: Option<string>, stamp: Stamp): (r: CommandTemplate)
    ensures r == source.(id := id, name := newName.GetOr(source.name + CopySuffix), templateType := User,
                         createdAt := stamp.created, updatedAt := stamp.updated, sortOrder := Increment32(source.sortOrder))
  {
    CommandTemplate(id, if newName.Some? then newName.value else source.name + CopySuffix,
                    source.description, source.commandArgs, User, source.category,
                    source.supportedInputFormats, source.outputExtension,
                    source.requiresHardwareAcceleration, source.requiredEncoder,
                    stamp.created, stamp.updated, Increment32(source.sortOrder))
  }

  predicate SortOrderLe(a: CommandTemplate, b: CommandTemplate) {
    a.sortOrder <= b.sortOrder
  }

  lemma SortOrderPreorder()
    ensures IsTotalPreorder(SortOrderLe)
  {
  }

  lemma LexLePreorder()
    ensures IsTotalPreorder(LexLe)
  {
    forall a, b ensures LexLe(a, b) || LexLe(b, a) {
      LexLeTotal(a, b);
    }
    forall a, b, c | LexLe(a, b) && LexLe(b, c) ensures LexLe(a, c) {
      LexLeTransitive(a, b, c);
    }
  }

  /** The records of a store that pass `p`, ordered by SortOrder (ties keep id order). */
  function Ordered(m: map<nat, CommandTemplate>, n: nat, p: CommandTemplate -> bool): (r: seq<CommandTemplate>)
    requires forall k :: k in m ==> k < n
    ensures SortedBy(r, SortOrderLe)
    ensures forall t :: t in r <==> t in m.Values && p(t)
    ensures (forall k :: k in m ==> m[k].id == k) ==> NoDuplicates(r)
  {
    var s := Filter(Values(m, n), p);
    ValuesAll(m, n);
    SortOrderPreorder();
    SortSorted(s, SortOrderLe);
    forall t ensures t in Sort(s, SortOrderLe) <==> t in s {
      SortMembers(s, SortOrderLe, t);
    }
    if forall k :: k in m ==> m[k].id == k then
      ValuesNoDuplicates(m, n);
      FilterNoDuplicates(Values(m, n), p);
      PermutationNoDuplicates(s, Sort(s, SortOrderLe));
      Sort(s, SortOrderLe)
    else
      Sort(s, SortOrderLe)
  }

  predicate IsUser(t: CommandTemplate) { t.templateType == User }

  predicate IsNonEmpty(c: string) { c != [] }

  function CategoryOf(t: CommandTemplate): string { t.category }

  /** The distinct non-empty categories of a store, in ascending ordinal order. */
  function CategoryList(m: map<nat, CommandTemplate>, n: nat): (r: seq<string>)
    requires forall k :: k in m ==> k < n
    ensures forall c :: c in r <==> c != [] && exists t :: t in m.Values && t.category == c
    ensures forall i, j :: 0 <= i < j < |r| ==> LexLe(r[i], r[j]) && r[i] != r[j]
  {
    var all := MapSeq(Values(m, n), CategoryOf);
    var s := Filter(Distinct(all), IsNonEmpty);
    ValuesAll(m, n);
    forall c ensures c in all <==> exists t :: t in m.Values && t.category == c {
      if c in all {
        var i :| 0 <= i < |all| && all[i] == c;
        assert Values(m, n)[i] in m.Values;
      }
      if t :| t in m.Values && t.category == c {
        var i :| 0 <= i < |Values(m, n)| && Values(m, n)[i] == t;
        assert all[i] == c;
      }
    }
    FilterNoDuplicates(Distinct(all), IsNonEmpty);
    LexLePreorder();
    SortSorted(s, LexLe);
    PermutationNoDuplicates(s, Sort(s, LexLe));
    forall c ensures c in Sort(s, LexLe) <==> c in s {
      SortMembers(s, LexLe, c);
    }
    Sort(s, LexLe)
  }

  /** Filtering keeps a sequence free of duplicates. */
  lemma {:induction false} FilterNoDuplicates<T(!new)>(s: seq<T>, p: T -> bool)
    requires NoDuplicates(s)
    ensures NoDuplicates(Filter(s, p))
  {
    if s != [] {
      FilterNoDuplicates(s[1..], p);
      var rest := Filter(s[1..], p);
      if p(s[0]) {
        assert s[0] !in rest by {
          assert s[0] !in s[1..];
        }
      }
    }
  }

  // ---------------------------------------------------------------------------
  // The service
  // ---------------------------------------------------------------------------

  class TemplateService {
    /** The templates collection, keyed by id. */
    var templates: map<nat, CommandTemplate>
    /** The next fresh id; every stored id is below it. */
    var nextId: nat
    /** The presets `GetSystemTemplates` builds from. */
    const presets: seq<Preset>

    ghost predicate Valid()
      reads this
    {
      && (forall k :: k in templates ==> k < nextId && templates[k].id == k)
      && UniqueNames(templates)
      && NamesDistinct(presets)
    }

    constructor()
      ensures Valid() && templates == map[] && nextId == 0 && presets == Catalogue
    {
      templates := map[];
      nextId := 0;
      presets := Catalogue;
      PresetNamesDistinct();
    }

    /** `GetAllTemplatesAsync`: every template, or only the User ones, by SortOrder. */
    function GetAll(includeSystem: bool): (r: seq<CommandTemplate>)
      requires Valid()
      reads this
      ensures SortedBy(r, SortOrderLe)
      ensures forall t :: t in r <==> t in templates.Values && (includeSystem || t.templateType == User)
      ensures NoDuplicates(r)
    {
      if includeSystem then Ordered(templates, nextId, (t: CommandTemplate) => true)
      else Ordered(templates, nextId, IsUser)
    }

    /** `GetTemplatesByCategoryAsync`: the templates of one category, by SortOrder. */
    function GetByCategory(category: string): (r: seq<CommandTemplate>)
      requires Valid()
      reads this
      ensures SortedBy(r, SortOrderLe)
      ensures forall t :: t in r <==> t in templates.Values && t.category == category
      ensures NoDuplicates(r)
    {
      Ordered(templates, nextId, (t: CommandTemplate) => t.category == category)
    }

    /** `GetTemplateByIdAsync`. */
    function GetById(id: nat): (r: Option<CommandTemplate>)
      requires Valid()
      reads this
      ensures r.Some? <==> id in templates
      ensures r.Some? ==> r.value == templates[id] && r.value.id == id
    {
      if id in templates then Some(templates[id]) else None
    }

    /** `GetCategoriesAsync`. */
    function GetCategories(): (r: seq<string>)
      requires Valid()
      reads this
      ensures forall c :: c in r <==> c != [] && exists t :: t in templates.Values && t.category == c
      ensures forall i, j :: 0 <= i < j < |r| ==> LexLe(r[i], r[j]) && r[i] != r[j]
    {
      CategoryList(templates, nextId)
    }

    /** `Insert` into the collection; an id at or past the counter moves the counter on. */
    method Insert(t: CommandTemplate) returns (r: Result<CommandTemplate, StoreError>)
      requires Valid()
      modifies this
      ensures Valid()
      ensures InsertInto(old(templates), t).Success? ==>
        r == Success(t) && templates == InsertInto(old(templates), t).value
        && nextId == (if t.id < old(nextId) then old(nextId) else t.id + 1)
      ensures InsertInto(old(templates), t).Failure? ==>
        r == Failure(InsertInto(old(templates), t).error) && templates == old(templates) && nextId == old(nextId)
    {
      var res := InsertInto(templates, t);
      if res.Failure? {
        return Failure(res.error);
      }
      InsertKeepsUnique(templates, t);
      templates := res.value;
      if nextId <= t.id {
        nextId := t.id + 1;
      }
      r := Success(t);
    }

    /** `Update` of a stored id. */
    method Store(t: CommandTemplate) returns (r: Result<bool, StoreError>)
      requires Valid() && t.id in templates
      modifies this
      ensures Valid() && nextId == old(nextId)
      ensures UpdateIn(old(templates), t).Success? ==> r == Success(true) && templates == UpdateIn(old(templates), t).value
      ensures UpdateIn(old(templates), t).Failure? ==>
        r == Failure(UpdateIn(old(templates), t).error) && templates == old(templates)
    {
      var res := UpdateIn(templates, t);
      if res.Failure? {
        return Failure(res.error);
      }
      UpdateKeepsUnique(templates, t);
      templates := res.value;
      r := Success(true);
    }

    /** `CreateTemplateAsync`: always stored as a User template, stamped with two clock readings. */
    method Create(template: CommandTemplate, stamp: Stamp) returns (r: Result<CommandTemplate, StoreError>)
      requires Valid()
      modifies this
      ensures Valid()
      ensures var stored := template.(templateType := User, createdAt := stamp.created, updatedAt := stamp.updated);
        && (InsertInto(old(templates), stored).Success? ==> r == Success(stored) && templates == InsertInto(old(templates), stored).value)
        && (InsertInto(old(templates), stored).Failure? ==> r.Failure? && templates == old(templates))
    {
      r := Insert(template.(templateType := User, createdAt := stamp.created, updatedAt := stamp.updated));
    }

    /** `UpdateTemplateAsync`: refused (false, nothing changes) for a missing or System template. */
    method Update(template: CommandTemplate, now: int) returns (r: Result<bool, StoreError>)
      requires Valid()
      modifies this
      ensures Valid() && nextId == old(nextId)
      ensures template.id !in old(templates) || old(templates)[template.id].templateType == System ==>
        r == Success(false) && templates == old(templates)
      ensures template.id in old(templates) && old(templates)[template.id].templateType == User ==>
        var stored := template.(updatedAt := now);
        && (UpdateIn(old(templates), stored).Success? ==> r == Success(true) && templates == old(templates)[template.id := stored])
        && (UpdateIn(old(templates), stored).Failure? ==> r.Failure? && templates == old(templates))
    {
      if template.id !in templates || templates[template.id].templateType == System {
        return Success(false);
      }
      r := Store(template.(updatedAt := now));
    }

    /** `DeleteTemplateAsync`: refused (false, nothing changes) for a missing or System template. */
    method Delete(id: nat) returns (r: bool)
      requires Valid()
      modifies this
      ensures Valid() && nextId == old(nextId)
      ensures r <==> id in old(templates) && old(templates)[id].templateType == User
      ensures r ==> templates == old(templates) - {id}
      ensures !r ==> templates == old(templates)
    {
      if id !in templates || templates[id].templateType == System {
        return false;
      }
      templates := templates - {id};
      r := true;
    }

    /** `CopyTemplateAsync`: a User copy under a fresh id, or NotFound for a missing source. */
    method Copy(sourceId: nat, newName: Option<string>, stamp: Stamp) returns (r: Result<CommandTemplate, StoreError>)
      requires Valid()
      modifies this
      ensures Valid()
      ensures sourceId !in old(templates) ==>
        r == Failure(NotFound(SourceMissing)) && templates == old(templates) && nextId == old(nextId)
      ensures sourceId in old(templates) ==>
        var copy := CopyOf(old(templates)[sourceId], old(nextId), newName, stamp);
        && (!NameTaken(old(templates), copy.name) ==>
              r == Success(copy) && templates == old(templates)[copy.id := copy] && nextId == old(nextId) + 1)
        && (NameTaken(old(templates), copy.name) ==>
              r == Failure(DuplicateKey("Name")) && templates == old(templates) && nextId == old(nextId))
    {
      if sourceId !in templates {
        return Failure(NotFound(SourceMissing));
      }
      var copy := CopyOf(templates[sourceId], nextId, newName, stamp);
      r := Insert(copy);
    }

    /** `InsertBulk`: all the templates or, when one name is already taken, none. */
    method InsertBulk(ts: seq<CommandTemplate>) returns (error: Option<StoreError>)
      requires Valid()
      requires forall i :: 0 <= i < |ts| ==> ts[i].id == nextId + i
      requires forall i, j :: 0 <= i < j < |ts| ==> ts[i].name != ts[j].name
      modifies this
      ensures Valid()
      ensures BulkClash(old(templates), ts) ==>
        error == Some(DuplicateKey("Name")) && templates == old(templates) && nextId == old(nextId)
      ensures !BulkClash(old(templates), ts) ==>
        error == None && templates == old(templates) + Place(ts, old(nextId)) && nextId == old(nextId) + |ts|
    {
      var staged := templates;
      var i := 0;
      while i < |ts|
        invariant 0 <= i <= |ts|
        invariant templates == old(templates) && nextId == old(nextId)
        invariant staged == templates + Place(ts[..i], nextId)
        invariant forall j :: 0 <= j < i ==> !NameTaken(templates, ts[j].name)
        invariant UniqueNames(staged)
      {
        if NameTaken(staged, ts[i].name) {
          StagedClash(templates, ts, nextId, i);
          return Some(DuplicateKey("Name"));
        }
        StagedStep(templates, ts, nextId, i, staged);
        StagedExtend(templates, ts, nextId, i);
        staged := staged[ts[i].id := ts[i]];
        i := i + 1;
      }
      assert ts[..|ts|] == ts;
      StagedIds(templates, ts, nextId);
      templates := staged;
      nextId := nextId + |ts|;
      error := None;
    }

    /** `InitializeSystemTemplatesAsync`: the presets, unless some System template already exists. */
    method Initialize(stamps: seq<Stamp>) returns (error: Option<StoreError>)
      requires Valid() && |stamps| == |presets|
      modifies this
      ensures Valid()
      ensures HasSystem(old(templates)) ==> error == None && templates == old(templates) && nextId == old(nextId)
      ensures !HasSystem(old(templates)) ==>
        var built := SystemTemplates(presets, old(nextId), stamps);
        && (BulkClash(old(templates), built) ==> error.Some? && templates == old(templates))
        && (!BulkClash(old(templates), built) ==>
              error == None && templates == old(templates) + Place(built, old(nextId)))
    {
      if exists k :: k in templates && templates[k].templateType == System {
        return None;
      }
      BuiltNamesDistinct(presets, nextId, stamps);
      error := InsertBulk(SystemTemplates(presets, nextId, stamps));
    }

    /** The ids of the System templates below `n`, ascending. */
    function SystemIds(n: nat): (r: seq<nat>)
      reads this
      ensures forall k :: k in r <==> k < n && k in templates && templates[k].templateType == System
    {
      if n == 0 then []
      else SystemIds(n - 1) + (if n - 1 in templates && templates[n - 1].templateType == System then [n - 1] else [])
    }

    /** The deletion half of `ResetSystemTemplatesAsync`: every System template, one id at a time. */
    method DeleteAllSystem()
      requires Valid()
      modifies this
      ensures Valid() && nextId == old(nextId)
      ensures templates == UserPart(old(templates))
    {
      var ids := SystemIds(nextId);
      var i := 0;
      ghost var deleted: set<nat> := {};
      while i < |ids|
        invariant 0 <= i <= |ids|
        invariant nextId == old(nextId)
        invariant Valid()
        invariant deleted == set j | 0 <= j < i :: ids[j]
        invariant templates == old(templates) - deleted
      {
        var _ := DeleteSystem(ids[i]);
        deleted := deleted + {ids[i]};
        i := i + 1;
      }
      assert forall k :: k in ids <==> k in deleted by {
        forall k ensures k in ids <==> k in deleted {
          if k in ids {
            var j :| 0 <= j < |ids| && ids[j] == k;
          }
        }
      }
      RemainderIsUserPart(templates, old(templates), ids);
    }

    /**
     * `ResetSystemTemplatesAsync`: deletes the System templates one by one,
     * then inserts the presets in one bulk write. The deletions stand even
     * when the bulk write is refused.
     */
    method Reset(stamps: seq<Stamp>) returns (error: Option<StoreError>)
      requires Valid() && |stamps| == |presets|
      modifies this
      ensures Valid()
      ensures var built := SystemTemplates(presets, old(nextId), stamps);
        && (BulkClash(UserPart(old(templates)), built) ==> error.Some? && templates == UserPart(old(templates)))
        && (!BulkClash(UserPart(old(templates)), built) ==>
              error == None && templates == UserPart(old(templates)) + Place(built, old(nextId)))
    {
      DeleteAllSystem();
      BuiltNamesDistinct(presets, nextId, stamps);
      error := InsertBulk(SystemTemplates(presets, nextId, stamps));
    }

    /** `CreateSystemTemplateAsync`: always stored as a System template, stamped with two clock readings. */
    method CreateSystem(template: CommandTemplate, stamp: Stamp) returns (r: Result<CommandTemplate, StoreError>)
      requires Valid()
      modifies this
      ensures Valid()
      ensures var stored := template.(templateType := System, createdAt := stamp.created, updatedAt := stamp.updated);
        && (InsertInto(old(templates), stored).Success? ==> r == Success(stored) && templates == InsertInto(old(templates), stored).value)
        && (InsertInto(old(templates), stored).Failure? ==> r.Failure? && templates == old(templates))
    {
      r := Insert(template.(templateType := System, createdAt := stamp.created, updatedAt := stamp.updated));
    }

    /** `UpdateSystemTemplateAsync`: refused only for a missing id; the record is kept System. */
    method UpdateSystem(template: CommandTemplate, now: int) returns (r: Result<bool, StoreError>)
      requires Valid()
      modifies this
      ensures Valid() && nextId == old(nextId)
      ensures template.id !in old(templates) ==> r == Success(false) && templates == old(templates)
      ensures template.id in old(templates) ==>
        var stored := template.(templateType := System, updatedAt := now);
        && (UpdateIn(old(templates), stored).Success? ==> r == Success(true) && templates == old(templates)[template.id := stored])
        && (UpdateIn(old(templates), stored).Failure? ==> r.Failure? && templates == old(templates))
    {
      if template.id !in templates {
        return Success(false);
      }
      r := Store(template.(templateType := System, updatedAt := now));
    }

    /** `DeleteSystemTemplateAsync`: deletes any stored template; false for a missing id. */
    method DeleteSystem(id: nat) returns (r: bool)
      requires Valid()
      modifies this
      ensures Valid() && nextId == old(nextId)
      ensures r <==> id in old(templates)
      ensures templates == old(templates) - {id}
    {
      if id !in templates {
        return false;
      }
      templates := templates - {id};
      r := true;
    }
  }

  // ---------------------------------------------------------------------------
  // Properties of the rules
  // ---------------------------------------------------------------------------

  /** Every placed preset is a System template. */
  lemma PlacedPresetsSystem(presets: seq<Preset>, base: nat, stamps: seq<Stamp>)
    requires |stamps| == |presets|
    ensures forall k :: k in Place(SystemTemplates(presets, base, stamps), base) ==>
      Place(SystemTemplates(presets, base, stamps), base)[k].templateType == System
  {
    var ts := SystemTemplates(presets, base, stamps);
    var p := Place(ts, base);
    forall k | k in p
      ensures p[k].templateType == System
    {
      var i := k - base;
      assert p[base + i] == ts[i];
    }
  }

  /** After the presets are in, initialising again changes nothing. */
  lemma InitializeIdempotent(m: map<nat, CommandTemplate>, presets: seq<Preset>, base: nat, stamps: seq<Stamp>)
    requires forall k :: k in m ==> k < base
    requires |stamps| == |presets|
    requires presets != []
    ensures HasSystem(m + Place(SystemTemplates(presets, base, stamps), base))
  {
    var ts := SystemTemplates(presets, base, stamps);
    var placed := m + Place(ts, base);
    assert Place(ts, base)[base + 0] == ts[0];
    assert placed[base].templateType == System;
  }

  /** A reset leaves the user templates exactly as they were. */
  lemma ResetKeepsUsers(m: map<nat, CommandTemplate>, presets: seq<Preset>, base: nat, stamps: seq<Stamp>)
    requires forall k :: k in m ==> k < base
    requires |stamps| == |presets|
    ensures UserPart(UserPart(m) + Place(SystemTemplates(presets, base, stamps), base)) == UserPart(m)
  {
    PlacedPresetsSystem(presets, base, stamps);
    var placed := UserPart(m) + Place(SystemTemplates(presets, base, stamps), base);
    assert UserPart(placed).Keys == UserPart(m).Keys;
  }

  /** After a successful reset the System templates are exactly the presets. */
  lemma ResetSystemPart(m: map<nat, CommandTemplate>, presets: seq<Preset>, base: nat, stamps: seq<Stamp>, k: nat)
    requires forall k :: k in m ==> k < base
    requires |stamps| == |presets|
    ensures var placed := UserPart(m) + Place(SystemTemplates(presets, base, stamps), base);
      k in placed && placed[k].templateType == System <==> base <= k < base + |presets|
  {
    PlacedPresetsSystem(presets, base, stamps);
  }

  /** A copy is a User template whatever the source, so the user operations may edit and delete it. */
  lemma CopyIsEditable(source: CommandTemplate, id: nat, newName: Option<string>, stamp: Stamp)
    ensures CopyOf(source, id, newName, stamp).templateType == User
    ensures newName.None? ==> CopyOf(source, id, newName, stamp).name != source.name
    ensures MinInt32 <= source.sortOrder < MaxInt32 ==> CopyOf(source, id, newName, stamp).sortOrder == source.sortOrder + 1
    ensures IsInt32(CopyOf(source, id, newName, stamp).sortOrder)
  {
    var r := CopyOf(source, id, newName, stamp);
    if newName.None? {
      assert |r.name| == |source.name| + |CopySuffix|;
    }
  }
}
