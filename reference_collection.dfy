/**
 * `collectRerefences` of util.kt: one pass over a parameter map that
 * appends the Vault references of every value to a caller-supplied
 * collection and, when a second collection is supplied, the names of the
 * parameters that had any. The map is given by its entries in iteration
 * order; the specification functions below describe the first `n` of them.
 */
module ReferenceCollection {
  import opened KotlinStrings
  import opened ReferenceGrammar
  import opened VaultReferences

  /** A caller's `MutableCollection<String>` with list semantics: `add` and `addAll` append. */
  class StringCollection {
    var items: seq<string>

    constructor (items: seq<string>)
      ensures this.items == items
    {
      this.items := items;
    }

    /** `add(x)`. */
    method Add(x: string)
      modifies this
      ensures items == old(items) + [x]
    {
      items := items + [x];
    }

    /** `addAll(xs)`. */
    method AddAll(xs: seq<string>)
      modifies this
      ensures items == old(items) + xs
    {
      items := items + xs;
    }
  }

  /** One entry of the parameter map. */
  datatype Parameter = Parameter(name: string, value: Value)

  /** What `getVaultReferences` returns for each of the first `n` parameters, in map order. */
  function ReferenceListsUpTo(parameters: seq<Parameter>, n: nat, prefix: string): (lists: seq<seq<string>>)
    requires n <= |parameters|
    ensures |lists| == n
  {
    if n == 0 then [] else ReferenceListsUpTo(parameters, n - 1, prefix) + [VaultReferencesOf(parameters[n - 1].value, prefix)]
  }

  /** What `getVaultReferences` returns for each parameter, in map order. */
  function ReferenceLists(parameters: seq<Parameter>, prefix: string): (lists: seq<seq<string>>)
    ensures |lists| == |parameters|
  {
    ReferenceListsUpTo(parameters, |parameters|, prefix)
  }

  /** The list at index `i` is that parameter's Vault references. */
  lemma {:induction false} ReferenceListsAt(parameters: seq<Parameter>, n: nat, prefix: string, i: nat)
    requires i < n <= |parameters|
    ensures ReferenceListsUpTo(parameters, n, prefix)[i] == VaultReferencesOf(parameters[i].value, prefix)
  {
    if i < n - 1 {
      ReferenceListsAt(parameters, n - 1, prefix, i);
    }
  }

  /** `start` followed by the first `n` lists, one after the other. */
  function WithReferences(start: seq<string>, lists: seq<seq<string>>, n: nat): seq<string>
    requires n <= |lists|
  {
    if n == 0 then start else WithReferences(start, lists, n - 1) + lists[n - 1]
  }

  /** `start` followed by the name of each of the first `n` parameters whose list is not empty. */
  function WithNames(start: seq<string>, parameters: seq<Parameter>, lists: seq<seq<string>>, n: nat): seq<string>
    requires n <= |parameters| == |lists|
  {
    if n == 0 then start
    else if lists[n - 1] != [] then WithNames(start, parameters, lists, n - 1) + [parameters[n - 1].name]
    else WithNames(start, parameters, lists, n - 1)
  }

  /** `start` followed, for each of the first `n` parameters whose list is not empty, by its name and then its list. */
  function WithNamesAndReferences(start: seq<string>, parameters: seq<Parameter>, lists: seq<seq<string>>, n: nat): seq<string>
    requires n <= |parameters| == |lists|
  {
    if n == 0 then start
    else if lists[n - 1] != [] then (WithNamesAndReferences(start, parameters, lists, n - 1) + [parameters[n - 1].name]) + lists[n - 1]
    else WithNamesAndReferences(start, parameters, lists, n - 1)
  }

  /**
   * `collectRerefences`. With `keys == null` only `references` changes;
   * when the caller passes the same collection twice it receives each
   * name followed by that parameter's references.
   */
  method CollectReferences(parameters: seq<Parameter>, prefix: string,
                           references: StringCollection, keys: StringCollection?)
    modifies references, keys
    ensures var lists := ReferenceLists(parameters, prefix);
            keys != references ==>
              references.items == WithReferences(old(references.items), lists, |parameters|)
    ensures var lists := ReferenceLists(parameters, prefix);
            keys != null && keys != references ==>
              keys.items == WithNames(old(keys.items), parameters, lists, |parameters|)
    ensures var lists := ReferenceLists(parameters, prefix);
            keys == references ==>
              references.items == WithNamesAndReferences(old(references.items), parameters, lists, |parameters|)
  {
    ghost var lists := ReferenceLists(parameters, prefix);
    var i := 0;
    while i < |parameters|
      invariant i <= |parameters|
      invariant keys != references ==>
                  references.items == WithReferences(old(references.items), lists, i)
      invariant keys != null && keys != references ==>
                  keys.items == WithNames(old(keys.items), parameters, lists, i)
      invariant keys == references ==>
                  references.items == WithNamesAndReferences(old(references.items), parameters, lists, i)
    {
      var parameter := parameters[i];
      ReferenceListsAt(parameters, |parameters|, prefix, i);
      if parameter.value.mayContainReference {
        var refs := GetVaultReferences(parameter.value, prefix);
        if refs != [] {
          if keys != null {
            keys.Add(parameter.name);
          }
          references.AddAll(refs);
        }
      }
      i := i + 1;
    }
  }

  /** A name is recorded exactly when it was there before or its parameter's value has at least one Vault reference. */
  lemma {:induction false} NamesWithReferencesIff(start: seq<string>, parameters: seq<Parameter>, prefix: string, name: string)
    ensures name in WithNames(start, parameters, ReferenceLists(parameters, prefix), |parameters|)
        <==> name in start
             || exists j :: 0 <= j < |parameters| && parameters[j].name == name
                            && VaultReferencesOf(parameters[j].value, prefix) != []
  {
    var lists := ReferenceLists(parameters, prefix);
    WithNamesMembership(start, parameters, lists, |parameters|, name);
    forall j | 0 <= j < |parameters|
      ensures lists[j] == VaultReferencesOf(parameters[j].value, prefix)
    {
      ReferenceListsAt(parameters, |parameters|, prefix, j);
    }
  }

  /** The inductive step behind `NamesWithReferencesIff`, over any lists. */
  lemma {:induction false} WithNamesMembership(start: seq<string>, parameters: seq<Parameter>, lists: seq<seq<string>>, n: nat, name: string)
    requires n <= |parameters| == |lists|
    ensures name in WithNames(start, parameters, lists, n)
        <==> name in start || exists j :: 0 <= j < n && parameters[j].name == name && lists[j] != []
  {
    if n > 0 {
      WithNamesMembership(start, parameters, lists, n - 1, name);
    }
  }

  /** A key is collected exactly when it was there before or is a Vault reference of some parameter's value. */
  lemma {:induction false} AllReferencesMembership(start: seq<string>, parameters: seq<Parameter>, prefix: string, key: string)
    ensures key in WithReferences(start, ReferenceLists(parameters, prefix), |parameters|)
        <==> key in start || exists j :: 0 <= j < |parameters| && key in VaultReferencesOf(parameters[j].value, prefix)
  {
    var lists := ReferenceLists(parameters, prefix);
    WithReferencesMembership(start, lists, |parameters|, key);
    forall j | 0 <= j < |parameters|
      ensures lists[j] == VaultReferencesOf(parameters[j].value, prefix)
    {
      ReferenceListsAt(parameters, |parameters|, prefix, j);
    }
  }

  /** The inductive step behind `AllReferencesMembership`, over any lists. */
  lemma {:induction false} WithReferencesMembership(start: seq<string>, lists: seq<seq<string>>, n: nat, key: string)
    requires n <= |lists|
    ensures key in WithReferences(start, lists, n) <==> key in start || exists j :: 0 <= j < n && key in lists[j]
  {
    if n > 0 {
      WithReferencesMembership(start, lists, n - 1, key);
    }
  }

  /** Every key a collection gains is in the Vault namespace, prefix attached: out-of-scope references never show up. */
  lemma {:induction false} AllReferencesInScope(start: seq<string>, parameters: seq<Parameter>, prefix: string, key: string)
    requires key in WithReferences(start, ReferenceLists(parameters, prefix), |parameters|)
    requires key !in start
    ensures InScope(key, prefix)
  {
    var lists := ReferenceLists(parameters, prefix);
    WithReferencesMembership(start, lists, |parameters|, key);
    var j :| 0 <= j < |parameters| && key in lists[j];
    ReferenceListsAt(parameters, |parameters|, prefix, j);
    VaultReferencesMembership(parameters[j].value, prefix, key);
  }

  /**
   * Passing one collection twice: it gains exactly as many entries as the
   * names and the references together (its contents are given by
   * `WithNamesAndReferences` in `CollectReferences`).
   */
  lemma {:induction false} NamesAndReferencesLength(start: seq<string>, parameters: seq<Parameter>, lists: seq<seq<string>>, n: nat)
    requires n <= |parameters| == |lists|
    ensures |WithNamesAndReferences(start, parameters, lists, n)|
         == |WithNames(start, parameters, lists, n)| + |WithReferences([], lists, n)|
  {
    if n > 0 {
      NamesAndReferencesLength(start, parameters, lists, n - 1);
    }
  }
}
