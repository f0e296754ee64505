/** The category registry of the dashboard (src/hooks/useCategories.ts): an
    ordered list of categories, the slug rule that derives a new category's id
    from its name, the add/update/delete operations on the list, and the
    id-to-label and id-to-icon lookups folded from it. Timestamps are not
    modelled. */
module Categories {
  import opened Wrappers
  import opened Seqs
  import opened Text

  /** `label` is a reserved word in Dafny, so the display name is `labelText`. */
  datatype Category = Category(id: string, name: string, labelText: string, icon: string)

  /** A `Partial<Category>`: the fields the caller supplies, each optional. */
  datatype CategoryPatch = CategoryPatch(
    id: Option<string>, name: Option<string>, labelText: Option<string>, icon: Option<string>)

  /** The ids in use, with their multiplicity forgotten. */
  function Ids(categories: seq<Category>): set<string> {
    set c | c in categories :: c.id
  }

  // ---------------------------------------------------------------------------
  // Slugs: name.toLowerCase().replace(/\s+/g, '-')
  // ---------------------------------------------------------------------------

  /** `s` with its leading run of whitespace removed. */
  function DropSpaces(s: string): (r: string)
    ensures |r| <= |s|
    ensures r == [] || !IsSpace(r[0])
  {
    if s != [] && IsSpace(s[0]) then DropSpaces(s[1..]) else s
  }

  /** `s.replace(/\s+/g, '-')`: each maximal run of whitespace becomes one hyphen. */
  function Hyphenate(s: string): (r: string)
    ensures forall i :: 0 <= i < |r| ==> !IsSpace(r[i])
    decreases |s|
  {
    if s == [] then []
    else if IsSpace(s[0]) then "-" + Hyphenate(DropSpaces(s[1..]))
    else [s[0]] + Hyphenate(s[1..])
  }

  /** The id `addCategory` derives from a category name. */
  function Slugify(name: string): (slug: string)
    ensures forall i :: 0 <= i < |slug| ==> !IsSpace(slug[i])
    ensures forall i :: 0 <= i < |slug| ==> !IsUpper(slug[i])
  {
    HyphenateKeepsLower(ToLower(name));
    Hyphenate(ToLower(name))
  }

  lemma {:induction false} DropSpacesSuffix(s: string)
    ensures DropSpaces(s) == s[|s| - |DropSpaces(s)|..]
  {
    if s != [] && IsSpace(s[0]) {
      DropSpacesSuffix(s[1..]);
    }
  }

  /** Hyphenating introduces no upper-case letter. */
  lemma {:induction false} HyphenateKeepsLower(s: string)
    requires forall i :: 0 <= i < |s| ==> !IsUpper(s[i])
    ensures forall i :: 0 <= i < |Hyphenate(s)| ==> !IsUpper(Hyphenate(s)[i])
    decreases |s|
  {
    if s != [] {
      if IsSpace(s[0]) {
        var tail := DropSpaces(s[1..]);
        DropSpacesSuffix(s[1..]);
        assert forall i :: 0 <= i < |tail| ==> tail[i] == s[|s| - |tail| + i];
        HyphenateKeepsLower(tail);
      } else {
        HyphenateKeepsLower(s[1..]);
      }
    }
  }

  /** Text without whitespace passes through unchanged. */
  lemma {:induction false} HyphenateFixes(s: string)
    requires forall i :: 0 <= i < |s| ==> !IsSpace(s[i])
    ensures Hyphenate(s) == s
  {
    if s != [] {
      HyphenateFixes(s[1..]);
    }
  }

  /** A whitespace run between a whitespace-free word and text that does not
      start with whitespace is replaced by exactly one hyphen. */
  lemma {:induction false} HyphenateRun(word: string, run: string, rest: string)
    requires forall i :: 0 <= i < |word| ==> !IsSpace(word[i])
    requires run != [] && forall i :: 0 <= i < |run| ==> IsSpace(run[i])
    requires rest == [] || !IsSpace(rest[0])
    ensures Hyphenate(word + run + rest) == word + "-" + Hyphenate(rest)
  {
    if word == [] {
      assert word + run + rest == run + rest;
      DropRun(run[1..], rest);
      assert (run + rest)[1..] == run[1..] + rest;
    } else {
      HyphenateRun(word[1..], run, rest);
      assert (word + run + rest)[1..] == word[1..] + run + rest;
    }
  }

  lemma {:induction false} DropRun(run: string, rest: string)
    requires forall i :: 0 <= i < |run| ==> IsSpace(run[i])
    requires rest == [] || !IsSpace(rest[0])
    ensures DropSpaces(run + rest) == rest
  {
    if run == [] {
      assert run + rest == rest;
    } else {
      var s := run + rest;
      assert s[0] == run[0] && IsSpace(s[0]);
      assert s[1..] == run[1..] + rest;
      DropRun(run[1..], rest);
    }
  }

  /** Slugifying a slug changes nothing, so the form's own slug rule and
      `addCategory`'s second application agree. */
  lemma SlugIdempotent(name: string)
    ensures Slugify(Slugify(name)) == Slugify(name)
  {
    var slug := Slugify(name);
    LowerFixes(slug);
    HyphenateFixes(slug);
  }

  /** The worked example: "Corner Sofas" becomes "corner-sofas". The name is
      passed as a parameter so that the verifier reasons about it step by step
      rather than by unfolding the functions on a literal. */
  lemma SlugExample(name: string)
    requires name == "Corner Sofas"
    ensures Slugify(name) == "corner-sofas"
  {
    var lowered := ToLower(name);
    assert |lowered| == 12;
    assert lowered[0] == LowerChar('C') == 'c';
    assert lowered[7] == LowerChar('S') == 's';
    forall i | 0 <= i < 12 && i != 0 && i != 7
      ensures lowered[i] == "corner sofas"[i]
    {
      assert !IsUpper(name[i]);
    }
    HyphenateExample(lowered);
  }

  lemma HyphenateExample(text: string)
    requires text == "corner sofas"
    ensures Hyphenate(text) == "corner-sofas"
  {
    var word, run, rest := text[..6], text[6..7], text[7..];
    assert text == word + run + rest;
    forall i | 0 <= i < |word|
      ensures !IsSpace(word[i])
    {
      assert 'a' <= word[i] <= 'z';
    }
    forall i | 0 <= i < |rest|
      ensures !IsSpace(rest[i])
    {
      assert 'a' <= rest[i] <= 'z';
    }
    assert IsSpace(run[0]);
    HyphenateRun(word, run, rest);
    HyphenateFixes(rest);
  }

  // ---------------------------------------------------------------------------
  // The registry state and its operations
  // ---------------------------------------------------------------------------

  /** The record `addCategory` appends for a draft: the draft's own fields
      with the id overwritten by the slug of its name. */
  function NewCategory(draft: Category): Category {
    draft.(id := Slugify(draft.name))
  }

  /** The patch that supplies no field. */
  const NoCategoryChanges := CategoryPatch(None, None, None, None)

  /** `{ ...cat, ...updates }`: supplied fields override, the others stay. */
  function MergeCategory(c: Category, patch: CategoryPatch): (merged: Category)
    ensures patch == NoCategoryChanges ==> merged == c
    ensures merged.id == if patch.id.Some? then patch.id.value else c.id
  {
    Category(patch.id.GetOr(c.id), patch.name.GetOr(c.name),
             patch.labelText.GetOr(c.labelText), patch.icon.GetOr(c.icon))
  }

  function PatchIfId(id: string, patch: CategoryPatch): Category -> Category {
    (c: Category) => if c.id == id then MergeCategory(c, patch) else c
  }

  function IdIsNot(id: string): Category -> bool {
    (c: Category) => c.id != id
  }

  /** The list after `updateCategory(id, patch)`. */
  function UpdatedCategories(categories: seq<Category>, id: string, patch: CategoryPatch): seq<Category> {
    Map(categories, PatchIfId(id, patch))
  }

  /** The list after `deleteCategory(id)`. */
  function WithoutCategory(categories: seq<Category>, id: string): seq<Category> {
    Filter(categories, IdIsNot(id))
  }

  /** `updateCategory` merges the patch into every entry with that id, keeps
      every other entry, and keeps the length and the order. */
  lemma UpdateCategoryEffect(categories: seq<Category>, id: string, patch: CategoryPatch)
    ensures |UpdatedCategories(categories, id, patch)| == |categories|
    ensures forall i :: 0 <= i < |categories| ==>
      UpdatedCategories(categories, id, patch)[i] ==
        if categories[i].id == id then MergeCategory(categories[i], patch) else categories[i]
  {
    forall i | 0 <= i < |categories|
      ensures UpdatedCategories(categories, id, patch)[i] == PatchIfId(id, patch)(categories[i])
    {
      MapAt(categories, PatchIfId(id, patch), i);
    }
  }

  /** Updating an id that no entry has is a no-op. */
  lemma UpdateAbsentCategory(categories: seq<Category>, id: string, patch: CategoryPatch)
    requires id !in Ids(categories)
    ensures UpdatedCategories(categories, id, patch) == categories
  {
    forall i | 0 <= i < |categories|
      ensures PatchIfId(id, patch)(categories[i]) == categories[i]
    {
      assert categories[i] in categories;
    }
    MapFixed(categories, PatchIfId(id, patch));
  }

  /** `deleteCategory` removes every entry with that id and keeps every other
      entry, in order; deleting twice is deleting once. */
  lemma DeleteCategoryEffect(categories: seq<Category>, id: string)
    ensures id !in Ids(WithoutCategory(categories, id))
    ensures forall c :: c in WithoutCategory(categories, id) <==> c in categories && c.id != id
    ensures |Positions(categories, IdIsNot(id))| == |WithoutCategory(categories, id)|
    ensures forall k :: 0 <= k < |Positions(categories, IdIsNot(id))| ==>
      Positions(categories, IdIsNot(id))[k] < |categories| &&
      WithoutCategory(categories, id)[k] == categories[Positions(categories, IdIsNot(id))[k]]
    ensures forall k, l :: 0 <= k < l < |Positions(categories, IdIsNot(id))| ==>
      Positions(categories, IdIsNot(id))[k] < Positions(categories, IdIsNot(id))[l]
    ensures forall i :: 0 <= i < |categories| ==>
      (i in Positions(categories, IdIsNot(id)) <==> categories[i].id != id)
    ensures WithoutCategory(WithoutCategory(categories, id), id) == WithoutCategory(categories, id)
  {
    forall c
      ensures c in WithoutCategory(categories, id) <==> c in categories && c.id != id
    {
      FilterMembership(categories, IdIsNot(id), c);
    }
    FilterKeepsOrder(categories, IdIsNot(id));
    FilterIdempotent(categories, IdIsNot(id));
  }

  /** Deleting the entry just added restores the list, when its slug was not
      already in use. */
  lemma DeleteUndoesAdd(categories: seq<Category>, draft: Category)
    requires Slugify(draft.name) !in Ids(categories)
    ensures WithoutCategory(categories + [NewCategory(draft)], NewCategory(draft).id) == categories
  {
    var id := Slugify(draft.name);
    FilterConcat(categories, [NewCategory(draft)], IdIsNot(id));
    FilterAll(categories, IdIsNot(id));
  }

  /** The category list held by the registry. */
  class CategoryRegistry {
    var categories: seq<Category>

    constructor (seed: seq<Category>)
      ensures categories == seed
    {
      categories := seed;
    }

    /** `addCategory`: append one entry whose id is the slug of its name. No
        check is made that the id is new. */
    method AddCategory(draft: Category) returns (created: Category)
      modifies this
      ensures created == NewCategory(draft)
      ensures created.id == Slugify(draft.name)
      ensures categories == old(categories) + [created]
    {
      created := NewCategory(draft);
      categories := categories + [created];
    }

    /** `updateCategory`: merge `patch` into every entry whose id is `id`. */
    method UpdateCategory(id: string, patch: CategoryPatch)
      modifies this
      ensures categories == UpdatedCategories(old(categories), id, patch)
      ensures |categories| == |old(categories)|
    {
      categories := UpdatedCategories(categories, id, patch);
    }

    /** `deleteCategory`: drop every entry whose id is `id`. */
    method DeleteCategory(id: string)
      modifies this
      ensures categories == WithoutCategory(old(categories), id)
      ensures id !in Ids(categories)
    {
      categories := WithoutCategory(categories, id);
      DeleteCategoryEffect(old(categories), id);
    }
  }

  // ---------------------------------------------------------------------------
  // categoryLabels and categoryIcons
  // ---------------------------------------------------------------------------

  /** Which field a lookup table is folded from. */
  datatype Field = Label | Icon

  function Pick(c: Category, field: Field): string {
    match field
    case Label => c.labelText
    case Icon => c.icon
  }

  /** No entry of `categories[..end]` after position `k` has the id of entry `k`. */
  predicate LastWithIdBefore(categories: seq<Category>, k: int, end: int)
    requires 0 <= k < end <= |categories|
  {
    forall j :: k < j < end ==> categories[j].id != categories[k].id
  }

  /** The table `categories.reduce((acc, cat) => { acc[cat.id] = cat.<field>;
      return acc }, {})` builds, as a left fold: each entry in turn writes its
      value under its id. */
  function Lookup(categories: seq<Category>, field: Field): (table: map<string, string>)
    ensures table.Keys == Ids(categories)
  {
    if categories == [] then map[]
    else
      var n := |categories| - 1;
      assert categories == categories[..n] + [categories[n]];
      Lookup(categories[..n], field)[categories[n].id := Pick(categories[n], field)]
  }

  /** Where an id repeats, the value of its last entry is the one in the table. */
  lemma {:induction false} LookupLastWins(categories: seq<Category>, field: Field, k: int)
    requires 0 <= k < |categories| && LastWithIdBefore(categories, k, |categories|)
    ensures categories[k].id in Lookup(categories, field)
    ensures Lookup(categories, field)[categories[k].id] == Pick(categories[k], field)
  {
    var n := |categories| - 1;
    var front := categories[..n];
    assert Lookup(categories, field) == Lookup(front, field)[categories[n].id := Pick(categories[n], field)];
    if k < n {
      assert categories[n].id != categories[k].id;
      assert front[k] == categories[k];
      assert LastWithIdBefore(front, k, n);
      LookupLastWins(front, field, k);
    }
  }

  /** `categoryLabels` (field `Label`) and `categoryIcons` (field `Icon`):
      fold the list into a table by assigning into an accumulator. */
  method BuildLookup(categories: seq<Category>, field: Field) returns (lookup: map<string, string>)
    ensures lookup == Lookup(categories, field)
    ensures lookup.Keys == Ids(categories)
    ensures forall k :: 0 <= k < |categories| && LastWithIdBefore(categories, k, |categories|) ==>
      lookup[categories[k].id] == Pick(categories[k], field)
  {
    lookup := map[];
    var i := 0;
    while i < |categories|
      invariant 0 <= i <= |categories|
      invariant lookup == Lookup(categories[..i], field)
    {
      var cat := categories[i];
      lookup := lookup[cat.id := Pick(cat, field)];
      assert categories[..i + 1][..i] == categories[..i];
      i := i + 1;
    }
    assert categories[..i] == categories;
    forall k | 0 <= k < |categories| && LastWithIdBefore(categories, k, |categories|)
      ensures lookup[categories[k].id] == Pick(categories[k], field)
    {
      LookupLastWins(categories, field, k);
    }
  }
}
