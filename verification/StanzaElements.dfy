/**
 What a start event of src/xmpp-parser-expat.c leaves in a new element, for any attributes with or
 without prefixes: told from the event alone.
 */
module StanzaElements {
  import opened Wrappers
  import opened Stanza
  import opened StanzaReader
  import opened StanzaBuilder

  /** `name` is what follows the first separator, or all of a name without one. */
  ghost predicate HasLocal(nsname: string, name: string) {
    (SEP !in nsname && nsname == name) || exists ns: string :: HasNs(nsname, ns, name)
  }

  predicate HasNs(nsname: string, ns: string, name: string) {
    SEP !in ns && nsname == ns + [SEP] + name
  }

  lemma {:induction false} OneSplit(nsname: string, ns: string, name: string, k: nat)
    requires HasNs(nsname, ns, name) && k < |nsname| && nsname[k] == SEP && SEP !in nsname[..k]
    ensures k == |ns| && nsname[..k] == ns && nsname[k + 1..] == name
  {
    assert nsname[|ns|] == SEP && forall i :: 0 <= i < |ns| ==> nsname[i] == ns[i];
    assert forall i :: 0 <= i < k ==> nsname[..k][i] == nsname[i];
    assert nsname[..|ns|] == ns && nsname[|ns| + 1..] == name;
  }

  lemma {:induction false} NsHasSeparator(nsname: string, ns: string, name: string)
    requires HasNs(nsname, ns, name)
    ensures SEP in nsname
  {
    assert nsname[|ns|] == SEP;
  }

  lemma {:induction false} LocalNameIff(nsname: string, name: string)
    ensures LocalName(nsname) == name <==> HasLocal(nsname, name)
    ensures forall ns :: HasNs(nsname, ns, LocalName(nsname)) <==> Namespace(nsname) == Some(ns)
    ensures Namespace(nsname) == None <==> SEP !in nsname
  {
    var found := Find(nsname, SEP);
    forall ns, n | HasNs(nsname, ns, n)
      ensures SEP in nsname
    {
      NsHasSeparator(nsname, ns, n);
    }
    if found.Some? {
      var k := found.value;
      assert nsname == nsname[..k] + [SEP] + nsname[k + 1..];
      assert HasNs(nsname, nsname[..k], nsname[k + 1..]);
      forall ns, n | HasNs(nsname, ns, n)
        ensures ns == nsname[..k] && n == nsname[k + 1..]
      {
        OneSplit(nsname, ns, n, k);
      }
    }
  }

  /** Attribute `i` gives `key` a value: neither of them is empty. */
  ghost predicate Gives(attributes: Attributes, i: nat, key: string)
    requires i < |attributes|
  {
    key != "" && attributes[i].1 != "" && HasLocal(attributes[i].0, key)
  }

  /** The last attribute that gives `key` a value. */
  ghost predicate GivesLast(attributes: Attributes, i: nat, key: string)
    requires i < |attributes|
  {
    Gives(attributes, i, key) && forall j :: i < j < |attributes| ==> !Gives(attributes, j, key)
  }

  ghost predicate NoneGives(attributes: Attributes, key: string) {
    forall i :: 0 <= i < |attributes| ==> !Gives(attributes, i, key)
  }

  /** The attribute table for one key. */
  lemma {:induction false} TableFor(table: map<string, string>, attributes: Attributes, key: string)
    ensures var r := SetAttributes(table, attributes);
            if NoneGives(attributes, key) then (key in r <==> key in table) && (key in r ==> r[key] == table[key])
            else exists i :: 0 <= i < |attributes| && GivesLast(attributes, i, key) && key in r && r[key] == attributes[i].1
    decreases |attributes|
  {
    if attributes != [] {
      var (name, value) := attributes[0];
      var rest := attributes[1..];
      var next := SetAttribute(table, LocalName(name), value);
      LocalNameIff(name, key);
      assert Gives(attributes, 0, key) <==> key != "" && value != "" && LocalName(name) == key;
      assert forall i :: 0 <= i < |rest| ==> (Gives(rest, i, key) <==> Gives(attributes, i + 1, key));
      TableFor(next, rest, key);
      hide Gives, HasLocal, LocalName;
      RestGives(attributes, key);
      if !NoneGives(rest, key) {
        var i :| 0 <= i < |rest| && GivesLast(rest, i, key) && SetAttributes(next, rest)[key] == rest[i].1;
        assert GivesLast(attributes, i + 1, key) && attributes[i + 1] == rest[i];
      } else if Gives(attributes, 0, key) {
        assert GivesLast(attributes, 0, key);
      }
    }
  }

  lemma {:induction false} RestGives(attributes: Attributes, key: string)
    requires attributes != []
    ensures NoneGives(attributes, key) <==> !Gives(attributes, 0, key) && NoneGives(attributes[1..], key)
    ensures forall i :: 0 <= i < |attributes| - 1 && GivesLast(attributes[1..], i, key) ==> GivesLast(attributes, i + 1, key)
    ensures NoneGives(attributes[1..], key) && Gives(attributes, 0, key) ==> GivesLast(attributes, 0, key)
  {
    var rest := attributes[1..];
    assert forall i :: 0 <= i < |rest| ==> (Gives(rest, i, key) <==> Gives(attributes, i + 1, key));
    hide Gives;
    assert forall i :: 1 <= i < |attributes| ==> (Gives(rest, i - 1, key) <==> Gives(attributes, i, key));
  }

  /**
   Main result: a new element has the local name, no children, under `xmlns` the namespace if the name
   has one that is not empty, and under every other key the last value given for it, if any.
   */
  lemma {:induction false} NewElementIs(nsname: string, attributes: Attributes, key: string)
    ensures var n := NewElement(nsname, attributes);
            && HasLocal(nsname, n.name) && n.children == []
            && (if key == XMLNS && exists ns: string :: ns != "" && HasNs(nsname, ns, n.name) then
                  key in n.attributes && HasNs(nsname, n.attributes[key], n.name)
                else if NoneGives(attributes, key) then key !in n.attributes
                else exists i :: 0 <= i < |attributes| && GivesLast(attributes, i, key)
                                 && key in n.attributes && n.attributes[key] == attributes[i].1)
  {
    LocalNameIff(nsname, LocalName(nsname));
    TableFor(map[], attributes, key);
    hide HasNs, HasLocal, LocalName, Namespace, SetAttributes, Gives, GivesLast, NoneGives;
  }
}
