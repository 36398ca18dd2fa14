/** An account's attribute list (src/bnetd/account.c): keys compare ignoring case and the first
    match counts. */
module Attributes {
  import opened Text

  datatype Attr = Attr(key: string, val: string)

  /** The position of the first attribute with this key, or the length of the list. */
  function FirstMatch(attrs: seq<Attr>, key: string): (i: nat)
    ensures i <= |attrs|
    ensures i < |attrs| ==> SameText(attrs[i].key, key)
    ensures forall j | 0 <= j < i :: !SameText(attrs[j].key, key)
  {
    if attrs == [] || SameText(attrs[0].key, key) then 0 else 1 + FirstMatch(attrs[1..], key)
  }

  /** account_set_strattr on the list: replace or unlink the first match, else put a new attribute
      in front. */
  function Assign(attrs: seq<Attr>, key: string, val: Option<string>): seq<Attr> {
    var i := FirstMatch(attrs, key);
    if i < |attrs| then
      if val.Some? then attrs[i := Attr(attrs[i].key, val.value)] else attrs[..i] + attrs[i + 1..]
    else if val.Some? then [Attr(key, val.value)] + attrs else attrs
  }

  /** No two attributes have the same key, ignoring case. */
  predicate Distinct(attrs: seq<Attr>) {
    forall i, j | 0 <= i < j < |attrs| :: Fold(attrs[i].key) != Fold(attrs[j].key)
  }

  /** The map the list stands for, keyed by folded names. */
  function MapOf(attrs: seq<Attr>): map<string, string> {
    if attrs == [] then map[] else MapOf(attrs[1..])[Fold(attrs[0].key) := attrs[0].val]
  }

  function Update(m: map<string, string>, key: string, val: Option<string>): map<string, string> {
    if val.Some? then m[Fold(key) := val.value] else m - {Fold(key)}
  }

  /** Looking a key up in the list is looking it up in the map. */
  lemma {:induction false} LookupIsMap(attrs: seq<Attr>, key: string)
    ensures Fold(key) in MapOf(attrs) <==> FirstMatch(attrs, key) < |attrs|
    ensures FirstMatch(attrs, key) < |attrs| ==>
              MapOf(attrs)[Fold(key)] == attrs[FirstMatch(attrs, key)].val
  {
    if attrs != [] && !SameText(attrs[0].key, key) {
      LookupIsMap(attrs[1..], key);
    }
  }

  lemma {:induction false} ReplaceAt(attrs: seq<Attr>, i: nat, val: string)
    requires i < |attrs| && FirstMatch(attrs, attrs[i].key) == i
    ensures MapOf(attrs[i := Attr(attrs[i].key, val)]) == MapOf(attrs)[Fold(attrs[i].key) := val]
  {
    var after := attrs[i := Attr(attrs[i].key, val)];
    if i == 0 {
      assert after[1..] == attrs[1..];
    } else {
      assert after[1..] == attrs[1..][i - 1 := Attr(attrs[i].key, val)];
      ReplaceAt(attrs[1..], i - 1, val);
    }
  }

  lemma {:induction false} AbsentKey(attrs: seq<Attr>, k: string)
    requires forall j | 0 <= j < |attrs| :: Fold(attrs[j].key) != k
    ensures k !in MapOf(attrs)
  {
    hide Fold;
    if attrs != [] {
      AbsentKey(attrs[1..], k);
    }
  }

  lemma {:induction false} RemoveAt(attrs: seq<Attr>, i: nat, k: string)
    requires i < |attrs| && Fold(attrs[i].key) == k
    requires forall j | 0 <= j < |attrs| && j != i :: Fold(attrs[j].key) != k
    ensures MapOf(attrs[..i] + attrs[i + 1..]) == MapOf(attrs) - {k}
  {
    hide Fold;
    var after := attrs[..i] + attrs[i + 1..];
    if i == 0 {
      assert after == attrs[1..];
      AbsentKey(attrs[1..], k);
    } else {
      var m, k0 := MapOf(attrs[1..]), Fold(attrs[0].key);
      assert after[1..] == attrs[1..][..i - 1] + attrs[1..][i..];
      RemoveAt(attrs[1..], i - 1, k);
      assert MapOf(after[1..]) == m - {k};
      assert k0 != k;
      assert (m - {k})[k0 := attrs[0].val] == m[k0 := attrs[0].val] - {k};
      assert after[0] == attrs[0];
    }
  }

  lemma FirstMatchOfItself(attrs: seq<Attr>, key: string)
    requires FirstMatch(attrs, key) < |attrs|
    ensures FirstMatch(attrs, attrs[FirstMatch(attrs, key)].key) == FirstMatch(attrs, key)
  {
    hide Fold;
    var i, j := FirstMatch(attrs, key), FirstMatch(attrs, attrs[FirstMatch(attrs, key)].key);
    assert j < i ==> SameText(attrs[j].key, key);
  }

  lemma AssignKeepsDistinct(attrs: seq<Attr>, key: string, val: Option<string>)
    requires Distinct(attrs)
    ensures Distinct(Assign(attrs, key, val))
  {
    hide Fold;
  }

  lemma RemoveOthers(attrs: seq<Attr>, i: nat)
    requires i < |attrs| && Distinct(attrs)
    ensures forall j | 0 <= j < |attrs| && j != i :: Fold(attrs[j].key) != Fold(attrs[i].key)
  {
    hide Fold;
  }

  lemma AddFront(attrs: seq<Attr>, a: Attr)
    ensures MapOf([a] + attrs) == MapOf(attrs)[Fold(a.key) := a.val]
  {
    hide Fold;
    assert ([a] + attrs)[1..] == attrs;
  }

  /** How the list is edited: the first attribute with the key keeps its place and its spelling and gets the value, or
      goes; a new one comes in front. */
  lemma AssignLaw(attrs: seq<Attr>, key: string, val: Option<string>) returns (i: nat)
    ensures if forall a | a in attrs :: Fold(a.key) != Fold(key) then
              Assign(attrs, key, val) == (if val.Some? then [Attr(key, val.value)] else []) + attrs
            else
              && i < |attrs| && Fold(attrs[i].key) == Fold(key)
              && (forall a | a in attrs[..i] :: Fold(a.key) != Fold(key))
              && Assign(attrs, key, val) ==
                 attrs[..i] + (if val.Some? then [Attr(attrs[i].key, val.value)] else []) + attrs[i + 1..]
  {
    hide Fold;
    i := FirstMatch(attrs, key);
    if i < |attrs| {
      assert attrs[i] in attrs && attrs[..i] + [] == attrs[..i];
    } else {
      assert [] + attrs == attrs;
    }
  }

  /** Editing the list is updating the map, and keys stay distinct. */
  lemma AssignIsUpdate(attrs: seq<Attr>, key: string, val: Option<string>)
    requires Distinct(attrs)
    ensures Distinct(Assign(attrs, key, val))
    ensures MapOf(Assign(attrs, key, val)) == Update(MapOf(attrs), key, val)
  {
    AssignKeepsDistinct(attrs, key, val);
    hide Fold, Distinct, FirstMatch, MapOf;
    var i := FirstMatch(attrs, key);
    LookupIsMap(attrs, key);
    if i == |attrs| {
      if val.Some? {
        AddFront(attrs, Attr(key, val.value));
      }
    } else if val.Some? {
      FirstMatchOfItself(attrs, key);
      ReplaceAt(attrs, i, val.value);
    } else {
      RemoveOthers(attrs, i);
      RemoveAt(attrs, i, Fold(key));
    }
  }
}
