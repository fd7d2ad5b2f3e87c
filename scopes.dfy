/**
 * The checker's symbol table (`aguda.context.Context`): a stack of name-to-type maps.
 * The head of the Java deque is index 0 here, so index 0 is the innermost scope and
 * every search runs from index 0 outwards.
 */
module Scopes {
  import opened Wrappers
  import opened Types
  import opened Java

  type Scope = map<string, Type>

  /** The innermost binding of `id`, or null. */
  function Lookup(scopes: seq<Scope>, id: string): (r: Option<Type>)
    ensures r.Some? ==> exists k :: 0 <= k < |scopes| && id in scopes[k] && scopes[k][id] == r.value
  {
    if scopes == [] then None
    else if id in scopes[0] then Some(scopes[0][id])
    else Lookup(scopes[1..], id)
  }

  /** Some scope has a binding for `id`. */
  predicate Bound(scopes: seq<Scope>, id: string) {
    exists k :: 0 <= k < |scopes| && id in scopes[k]
  }

  function Push(scopes: seq<Scope>): (r: seq<Scope>)
    ensures |r| == |scopes| + 1 && r[0] == map[] && r[1..] == scopes
  {
    [map[]] + scopes
  }

  /** `peek().put(id, t)` on a non-empty stack. */
  function Bind(scopes: seq<Scope>, id: string, t: Type): (r: seq<Scope>)
    requires scopes != []
    ensures |r| == |scopes| && r[0] == scopes[0][id := t] && r[1..] == scopes[1..]
  {
    [scopes[0][id := t]] + scopes[1..]
  }

  /** `peek().remove(id)` when the stack is not empty; nothing otherwise. */
  function Unbind(scopes: seq<Scope>, id: string): (r: seq<Scope>)
    ensures |r| == |scopes|
    ensures scopes != [] ==> r[0] == scopes[0] - {id} && r[1..] == scopes[1..]
    ensures scopes == [] ==> r == []
  {
    if scopes == [] then [] else [scopes[0] - {id}] + scopes[1..]
  }

  const NoScopeToEnd := IllegalStateException("No scope to end.")
  const NoScopeToInsert := IllegalStateException("No scope to insert into.")

  // Properties of the table.

  /** `get` succeeds exactly when `contains` holds. */
  lemma {:induction false} LookupIffBound(scopes: seq<Scope>, id: string)
    ensures Lookup(scopes, id).Some? <==> Bound(scopes, id)
  {
    if scopes != [] && id !in scopes[0] {
      LookupIffBound(scopes[1..], id);
      if Bound(scopes, id) {
        var k :| 0 <= k < |scopes| && id in scopes[k];
        assert id in scopes[1..][k - 1];
      }
    }
  }

  /** Search is innermost-first: the innermost scope that binds `id` decides the answer. */
  lemma {:induction false} LookupInnermost(scopes: seq<Scope>, id: string, k: nat)
    requires k < |scopes| && id in scopes[k]
    requires forall j :: 0 <= j < k ==> id !in scopes[j]
    ensures Lookup(scopes, id) == Some(scopes[k][id])
  {
    if k > 0 {
      LookupInnermost(scopes[1..], id, k - 1);
    }
  }

  /** `add(id, t)` followed by `get(id)` gives `t`, whatever outer scopes bind. */
  lemma BindThenLookup(scopes: seq<Scope>, id: string, t: Type)
    requires scopes != []
    ensures Lookup(Bind(scopes, id, t), id) == Some(t)
  {
  }

  /** Adding `id` leaves the lookup of every other name unchanged. */
  lemma BindOther(scopes: seq<Scope>, id: string, t: Type, other: string)
    requires scopes != [] && other != id
    ensures Lookup(Bind(scopes, id, t), other) == Lookup(scopes, other)
  {
    var r := Bind(scopes, id, t);
    assert r[1..] == scopes[1..];
  }

  /** A fresh scope hides nothing: every lookup answers as before. */
  lemma PushLookup(scopes: seq<Scope>, id: string)
    ensures Lookup(Push(scopes), id) == Lookup(scopes, id)
  {
    assert Push(scopes)[1..] == scopes;
  }

  /** `beginScope` then `endScope` gives back the very same stack. */
  lemma PushThenPop(scopes: seq<Scope>)
    ensures Push(scopes)[1..] == scopes
  {
  }

  /** A binding made in an inner scope disappears with that scope. */
  lemma InnerBindingDiscarded(scopes: seq<Scope>, id: string, t: Type, other: string)
    ensures Lookup(Bind(Push(scopes), id, t)[1..], other) == Lookup(scopes, other)
  {
    assert Bind(Push(scopes), id, t)[1..] == scopes;
  }

  /** `remove(id)` in the innermost scope uncovers the next outer binding of `id`. */
  lemma UnbindUncovers(scopes: seq<Scope>, id: string)
    requires scopes != []
    ensures Lookup(Unbind(scopes, id), id) == Lookup(scopes[1..], id)
  {
    assert Unbind(scopes, id)[1..] == scopes[1..];
  }

  /** The checker's view of a `Context` object; `scopes` is the Java deque, head first. */
  class Context {
    var scopes: seq<Scope>

    /** A new context holds exactly one, empty, global scope. */
    constructor ()
      ensures scopes == [map[]]
    {
      scopes := [];
      new;
      BeginScope();
    }

    method BeginScope()
      modifies this
      ensures scopes == Push(old(scopes))
    {
      scopes := [map[]] + scopes;
    }

    /** Pops the innermost scope; on an empty stack nothing changes and the exception is returned. */
    method EndScope() returns (thrown: Option<Exception>)
      modifies this
      ensures old(scopes) == [] ==> thrown == Some(NoScopeToEnd) && scopes == old(scopes)
      ensures old(scopes) != [] ==> thrown == None && scopes == old(scopes)[1..]
    {
      if scopes == [] {
        return Some(NoScopeToEnd);
      }
      scopes := scopes[1..];
      return None;
    }

    method Add(id: string, t: Type) returns (thrown: Option<Exception>)
      modifies this
      ensures old(scopes) == [] ==> thrown == Some(NoScopeToInsert) && scopes == old(scopes)
      ensures old(scopes) != [] ==> thrown == None && scopes == Bind(old(scopes), id, t)
    {
      if scopes == [] {
        return Some(NoScopeToInsert);
      }
      scopes := [scopes[0][id := t]] + scopes[1..];
      return None;
    }

    method Contains(id: string) returns (found: bool)
      ensures found <==> Bound(scopes, id)
    {
      var k := 0;
      while k < |scopes|
        invariant 0 <= k <= |scopes|
        invariant forall j :: 0 <= j < k ==> id !in scopes[j]
      {
        if id in scopes[k] {
          return true;
        }
        k := k + 1;
      }
      return false;
    }

    method Get(id: string) returns (t: Option<Type>)
      ensures t == Lookup(scopes, id)
    {
      var k := 0;
      while k < |scopes|
        invariant 0 <= k <= |scopes|
        invariant forall j :: 0 <= j < k ==> id !in scopes[j]
      {
        if id in scopes[k] {
          LookupInnermost(scopes, id, k);
          return Some(scopes[k][id]);
        }
        k := k + 1;
      }
      LookupIffBound(scopes, id);
      return None;
    }

    method Remove(id: string)
      modifies this
      ensures scopes == Unbind(old(scopes), id)
    {
      if scopes != [] {
        scopes := [scopes[0] - {id}] + scopes[1..];
      }
    }
  }
}
