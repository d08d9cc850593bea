/// The label table of the assembler (symbol_table.h): a map from label name
/// to address plus the list of names in definition order.
module Symbols {
  import opened Common

  /// The names of a list of (name, address) definitions, in order.
  function Names(entries: seq<(string, nat)>): (names: seq<string>)
    ensures |names| == |entries|
    ensures forall k :: 0 <= k < |entries| ==> names[k] == entries[k].0
  {
    if entries == [] then [] else Names(entries[..|entries| - 1]) + [entries[|entries| - 1].0]
  }

  /// The map that results from entering the definitions one after another.
  function TableOf(entries: seq<(string, nat)>): map<string, nat> {
    if entries == [] then map[]
    else
      var last := entries[|entries| - 1];
      TableOf(entries[..|entries| - 1])[last.0 := last.1]
  }

  /// A name is in the table exactly when it was defined.
  lemma {:induction false} TableOfKeys(entries: seq<(string, nat)>, name: string)
    ensures name in TableOf(entries) <==> name in Names(entries)
  {
    if entries != [] {
      var prefix := entries[..|entries| - 1];
      TableOfKeys(prefix, name);
      assert Names(entries) == Names(prefix) + [entries[|entries| - 1].0];
    }
  }

  /// With no name defined twice, the table maps each defined name to the
  /// address it was defined with.
  lemma {:induction false} TableOfAt(entries: seq<(string, nat)>, k: nat)
    requires NoDuplicates(Names(entries)) && k < |entries|
    ensures entries[k].0 in TableOf(entries) && TableOf(entries)[entries[k].0] == entries[k].1
  {
    var n := |entries| - 1;
    var prefix := entries[..n];
    if k < n {
      assert Names(prefix) == Names(entries)[..n];
      assert NoDuplicates(Names(prefix));
      TableOfAt(prefix, k);
      assert Names(entries)[k] != Names(entries)[n];
    }
  }

  class SymbolTable {
    var table: map<string, nat>
    var order: seq<string>
    /// Every definition made so far, in order: the table's abstract value.
    ghost var entries: seq<(string, nat)>

    ghost predicate Valid()
      reads this
    {
      order == Names(entries) && NoDuplicates(order) && table == TableOf(entries)
    }

    constructor()
      ensures Valid() && entries == []
    {
      table := map[];
      order := [];
      entries := [];
    }

    /// Defines `name` at `address`; a name already defined is an error and
    /// leaves the table as it was.
    method Define(name: string, address: nat) returns (r: Result<()>)
      requires Valid()
      modifies this
      ensures Valid()
      ensures r.Ok? <==> name !in old(order)
      ensures r.Ok? ==> entries == old(entries) + [(name, address)]
      ensures r.Ok? ==> Lookup(name) == Ok(address)
      ensures r.Err? ==> r == Err(DuplicateLabel(name)) && entries == old(entries)
    {
      TableOfKeys(entries, name);
      if name in table {
        return Err(DuplicateLabel(name));
      }
      table := table[name := address];
      order := order + [name];
      entries := entries + [(name, address)];
      assert entries[..|entries| - 1] == old(entries);
      assert Names(entries) == old(Names(entries)) + [name];
      r := Ok(());
    }

    /// The address of a defined name; an undefined name is an error.
    function Lookup(name: string): (r: Result<nat>)
      reads this
      requires Valid()
      ensures r.Ok? <==> name in order
      ensures r.Err? ==> r == Err(UndefinedLabel(name))
      ensures r.Ok? ==> exists k :: 0 <= k < |entries| && entries[k] == (name, r.value)
    {
      TableOfKeys(entries, name);
      if name in table then
        var k :| 0 <= k < |order| && order[k] == name;
        TableOfAt(entries, k);
        Ok(table[name])
      else Err(UndefinedLabel(name))
    }

    predicate Contains(name: string)
      reads this
      requires Valid()
      ensures Contains(name) <==> Lookup(name).Ok?
    {
      TableOfKeys(entries, name);
      name in table
    }

    /// The defined names in definition order.
    function Order(): (names: seq<string>)
      reads this
      requires Valid()
      ensures names == Names(entries) && NoDuplicates(names)
    {
      order
    }
  }
}
