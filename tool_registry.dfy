/** The registry of pluggable tools: an insertion-ordered map from tool id
    to its metadata, where the first registration of an id wins and listing
    honours each tool's enabled flag. */
module Registry {
  import opened Wrappers
  import Sequences

  /** A tool's descriptor. The React component is left out; `isEnabled`
      is what the tool's flag function returns, or `None` when it has none. */
  datatype ToolMetadata = ToolMetadata(
    id: string,
    name: string,
    description: string,
    icon: Option<string>,
    path: string,
    featureFlags: Option<seq<string>>,
    category: Option<string>,
    isEnabled: Option<bool>)

  /** The filter of `getAll`: a tool without a flag function is enabled. */
  predicate IsEnabled(t: ToolMetadata): (b: bool)
    ensures b <==> t.isEnabled != Some(false)
  {
    match t.isEnabled
    case None => true
    case Some(b) => b
  }

  predicate InCategory(t: ToolMetadata, category: string)
  {
    t.category == Some(category)
  }

  /** No id occurs twice. */
  ghost predicate DistinctIds(tools: seq<ToolMetadata>)
  {
    forall i, j :: 0 <= i < j < |tools| ==> tools[i].id != tools[j].id
  }

  /** `tools.has(id)`. */
  predicate Has(tools: seq<ToolMetadata>, id: string)
  {
    exists i :: 0 <= i < |tools| && tools[i].id == id
  }

  /** `tools.get(id)`. */
  function Lookup(tools: seq<ToolMetadata>, id: string): (r: Option<ToolMetadata>)
    ensures r.None? <==> !Has(tools, id)
    ensures r.Some? ==> r.value.id == id && r.value in tools
  {
    var i := Sequences.FirstIndex(tools, (t: ToolMetadata) => t.id == id);
    if i == -1 then None else Some(tools[i])
  }

  /** With distinct ids, the listed tool with a given id is the one lookup finds. */
  lemma LookupUnique(tools: seq<ToolMetadata>, i: nat)
    requires DistinctIds(tools) && i < |tools|
    ensures Lookup(tools, tools[i].id) == Some(tools[i])
  {
    var k := Sequences.FirstIndex(tools, (t: ToolMetadata) => t.id == tools[i].id);
    assert k != -1 && tools[k].id == tools[i].id;
  }

  /** `getAll()`: the enabled tools in registration order. */
  function Enabled(tools: seq<ToolMetadata>): (r: seq<ToolMetadata>)
    ensures forall i :: 0 <= i < |r| ==> IsEnabled(r[i]) && r[i] in tools
    ensures forall i :: 0 <= i < |tools| && IsEnabled(tools[i]) ==> tools[i] in r
  {
    Sequences.Filter(tools, IsEnabled)
  }

  /** `getAllByCategory(category)`: `getAll()` narrowed to one category. */
  function EnabledIn(tools: seq<ToolMetadata>, category: string): (r: seq<ToolMetadata>)
    ensures forall i :: 0 <= i < |r| ==> IsEnabled(r[i]) && InCategory(r[i], category) && r[i] in tools
    ensures forall i :: 0 <= i < |tools| && IsEnabled(tools[i]) && InCategory(tools[i], category) ==> tools[i] in r
  {
    Sequences.Filter(Enabled(tools), t => InCategory(t, category))
  }

  /** `getAll()` keeps registration order and lists no id twice. */
  lemma EnabledOrdered(tools: seq<ToolMetadata>)
    requires DistinctIds(tools)
    ensures Sequences.IsSubsequence(Enabled(tools), tools)
    ensures DistinctIds(Enabled(tools))
  {
    Sequences.FilterIsSubsequence(tools, IsEnabled);
    Sequences.FilterDistinct(tools, IsEnabled, (t: ToolMetadata) => t.id);
  }

  /** `getAllByCategory(c)` is a subsequence of `getAll()`, and narrowing
      it to the category once more changes nothing. */
  lemma EnabledInIsSubsequence(tools: seq<ToolMetadata>, category: string)
    ensures Sequences.IsSubsequence(EnabledIn(tools, category), Enabled(tools))
    ensures Sequences.Filter(EnabledIn(tools, category), t => InCategory(t, category)) == EnabledIn(tools, category)
  {
    Sequences.FilterIsSubsequence(Enabled(tools), t => InCategory(t, category));
    Sequences.FilterIdempotent(Enabled(tools), t => InCategory(t, category));
  }

  class ToolRegistry {
    /** The `Map`'s entries in insertion order. */
    var tools: seq<ToolMetadata>

    ghost predicate Valid()
      reads this
    {
      DistinctIds(tools)
    }

    constructor()
      ensures Valid() && tools == []
    {
      tools := [];
    }

    /** `register(metadata)`: a second registration of an id is ignored. */
    method Register(metadata: ToolMetadata)
      requires Valid()
      modifies this
      ensures Valid()
      ensures Has(old(tools), metadata.id) ==> tools == old(tools)
      ensures !Has(old(tools), metadata.id) ==> tools == old(tools) + [metadata]
      ensures Get(metadata.id) == if Has(old(tools), metadata.id) then Lookup(old(tools), metadata.id) else Some(metadata)
    {
      if Lookup(tools, metadata.id).Some? {
        return;
      }
      tools := tools + [metadata];
      LookupUnique(tools, |tools| - 1);
    }

    /** `unregister(id)`. */
    method Unregister(id: string)
      requires Valid()
      modifies this
      ensures Valid()
      ensures tools == Sequences.Filter(old(tools), (t: ToolMetadata) => t.id != id)
      ensures Get(id) == None
      ensures forall other :: other != id ==> Get(other) == Lookup(old(tools), other)
    {
      var p := (t: ToolMetadata) => t.id != id;
      Sequences.FilterDistinct(tools, p, (t: ToolMetadata) => t.id);
      tools := Sequences.Filter(tools, p);
      forall other | other != id ensures Lookup(tools, other) == Lookup(old(tools), other) {
        UnregisterKeeps(old(tools), id, other);
      }
    }

    /** `get(id)`: the metadata registered under the id, enabled or not. */
    function Get(id: string): (r: Option<ToolMetadata>)
      reads this
      ensures r.None? <==> !Has(tools, id)
      ensures r.Some? ==> r.value.id == id && r.value in tools
    {
      Lookup(tools, id)
    }

    /** `getAll()`. */
    function GetAll(): (r: seq<ToolMetadata>)
      reads this
      ensures forall i :: 0 <= i < |r| ==> IsEnabled(r[i]) && r[i] in tools
      ensures forall i :: 0 <= i < |tools| && IsEnabled(tools[i]) ==> tools[i] in r
    {
      Enabled(tools)
    }

    /** `getAllByCategory(category)`. */
    function GetAllByCategory(category: string): (r: seq<ToolMetadata>)
      reads this
      ensures forall i :: 0 <= i < |r| ==> r[i] in GetAll() && InCategory(r[i], category)
      ensures forall i :: 0 <= i < |GetAll()| && InCategory(GetAll()[i], category) ==> GetAll()[i] in r
    {
      EnabledIn(tools, category)
    }
  }

  /** Removing one id leaves every other id's lookup as it was. */
  lemma {:induction false} UnregisterKeeps(tools: seq<ToolMetadata>, id: string, other: string)
    requires other != id
    ensures Lookup(Sequences.Filter(tools, (t: ToolMetadata) => t.id != id), other) == Lookup(tools, other)
  {
    if tools != [] {
      UnregisterKeeps(tools[1..], id, other);
      var p := (t: ToolMetadata) => t.id != id;
      var f := Sequences.Filter(tools, p);
      if tools[0].id == other {
        assert f[0] == tools[0];
      } else if tools[0].id == id {
        assert f == Sequences.Filter(tools[1..], p);
        assert Lookup(tools, other) == Lookup(tools[1..], other) by {
          LookupTail(tools, other);
        }
      } else {
        assert f == [tools[0]] + Sequences.Filter(tools[1..], p);
        assert f[1..] == Sequences.Filter(tools[1..], p);
        LookupTail(f, other);
        LookupTail(tools, other);
      }
    }
  }

  /** Lookup skips a first element with a different id. */
  lemma LookupTail(tools: seq<ToolMetadata>, id: string)
    requires tools != [] && tools[0].id != id
    ensures Lookup(tools, id) == Lookup(tools[1..], id)
  {
    var p := (t: ToolMetadata) => t.id == id;
    var k := Sequences.FirstIndex(tools, p);
    var k' := Sequences.FirstIndex(tools[1..], p);
    if k == -1 {
      assert k' == -1;
    } else {
      assert k' == k - 1;
    }
  }
}
