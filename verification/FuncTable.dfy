/** The function table: names to bodies, where a redefinition keeps the displaced
    body allocated because a call may still be running it. */
module FuncTable {
  import opened Options
  import opened Ast

  /** Every tree that was allocated still is, unchanged. */
  ghost predicate Extends(m: map<nat, Node>, m': map<nat, Node>) {
    forall a | a in m :: a in m' && m'[a] == m[a]
  }

  /** Each name stands once, beside the address of the body it means. */
  ghost predicate Indexed(names: seq<string>, bodies: seq<nat>, trees: map<nat, Node>, defs: map<string, Node>) {
    && |names| == |bodies|
    && (forall i, j | 0 <= i < j < |names| :: names[i] != names[j])
    && (forall i | 0 <= i < |names| ::
          bodies[i] in trees && names[i] in defs && defs[names[i]] == trees[bodies[i]])
    && (forall name | name in defs :: name in names)
  }

  lemma IndexedBelow(names: seq<string>, bodies: seq<nat>, trees: map<nat, Node>, defs: map<string, Node>,
                     a: nat, body: Node)
    requires Indexed(names, bodies, trees, defs) && a !in trees
    ensures Indexed(names, bodies, trees[a := body], defs)
  {
  }

  lemma IndexReplaced(names: seq<string>, bodies: seq<nat>, trees: map<nat, Node>, defs: map<string, Node>,
                      i: nat, a: nat)
    requires Indexed(names, bodies, trees, defs) && i < |names| && a in trees
    ensures bodies[i] in trees && Indexed(names, bodies[i := a], trees, defs[names[i] := trees[a]])
  {
  }

  lemma IndexAdded(names: seq<string>, bodies: seq<nat>, trees: map<nat, Node>, defs: map<string, Node>,
                   name: string, a: nat)
    requires Indexed(names, bodies, trees, defs) && name !in defs && a in trees
    ensures Indexed(names + [name], bodies + [a], trees, defs[name := trees[a]])
  {
    var ns := names + [name];
    assert ns[|names|] == name;
    assert forall n | n in names :: n in ns;
  }

  class Table {
    /** Trees owned by the table, by address. */
    var trees: map<nat, Node>
    var next: nat
    var names: seq<string>
    var bodies: seq<nat>
    var retired: seq<nat>
    ghost var defs: map<string, Node>

    ghost predicate Valid()
      reads this
    {
      && Indexed(names, bodies, trees, defs)
      && (forall a | a in retired :: a in trees)
      && (forall a | a in trees :: a < next)
    }

    constructor ()
      ensures Valid() && defs == map[]
    {
      trees, next, names, bodies, retired, defs := map[], 0, [], [], [], map[];
    }

    method Find(name: string) returns (i: nat)
      requires Valid()
      ensures i <= |names| == |bodies| && (i < |names| ==> names[i] == name)
      ensures i == |names| ==> name !in defs
    {
      i := 0;
      while i < |names| && names[i] != name
        invariant i <= |names| && name !in names[..i]
      {
        i := i + 1;
      }
      assert names[..|names|] == names;
    }

    /** Takes ownership of a tree and returns its address. */
    method Own(body: Node) returns (a: nat)
      requires Valid()
      modifies `trees, `next
      ensures Valid() && a !in old(trees) && trees == old(trees)[a := body]
    {
      hide Indexed;
      a := next;
      IndexedBelow(names, bodies, trees, defs, a, body);
      trees := trees[a := body];
      next := next + 1;
    }

    /** A redefinition retires the old body instead of freeing it. */
    method Define(name: string, body: Node)
      requires Valid()
      modifies this
      ensures Valid() && defs == old(defs)[name := body] && Extends(old(trees), trees)
    {
      hide Indexed;
      var i := Find(name);
      var a := Own(body);
      if i < |names| {
        IndexReplaced(names, bodies, trees, defs, i, a);
        retired := retired + [bodies[i]];
        bodies := bodies[i := a];
      } else {
        IndexAdded(names, bodies, trees, defs, name, a);
        names := names + [name];
        bodies := bodies + [a];
      }
      defs := defs[name := body];
    }

    method Lookup(name: string) returns (a: Option<nat>)
      requires Valid()
      ensures a.None? <==> name !in defs
      ensures a.Some? ==> a.value in trees && trees[a.value] == defs[name]
    {
      var i := Find(name);
      a := if i < |names| then Some(bodies[i]) else None;
    }
  }
}
