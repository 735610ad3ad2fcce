/** What the login reads out of a stanza, said on the tree alone. */
module LoginReading {
  import opened Wrappers
  import opened Stanza
  import opened StanzaBuilder
  import opened Login

  /** The places of the elements of this name. */
  predicate NamedAt(kids: seq<Node>, k: nat, name: string) {
    k < |kids| && kids[k].Element? && kids[k].name == name
  }

  /** The first child of a name is found, and none only when there is none. */
  lemma {:induction false} ChildByNameIff(kids: seq<Node>, name: string, k: nat)
    ensures NamedAt(kids, k, name) && (forall j: nat :: j < k ==> !NamedAt(kids, j, name)) ==> ChildByName(kids, name) == Some(kids[k])
    ensures ChildByName(kids, name) == None <==> forall j: nat :: !NamedAt(kids, j, name)
    decreases |kids|
  {
    if kids != [] {
      assert forall j: nat :: j > 0 ==> (NamedAt(kids, j, name) <==> NamedAt(kids[1..], j - 1, name));
      assert forall j: nat :: NamedAt(kids[1..], j, name) <==> NamedAt(kids, j + 1, name);
      ChildByNameIff(kids[1..], name, if k > 0 then k - 1 else 0);
      assert NamedAt(kids, 0, name) <==> Name(kids[0]) == Some(name);
    }
  }

  /** Two letters that differ at most in case, as im_stricmp sees them. */
  predicate SameLetter(a: char, b: char) {
    a == b || ('A' <= a <= 'Z' && b as int == a as int + 32) || ('A' <= b <= 'Z' && a as int == b as int + 32)
  }

  lemma {:induction false} SameIgnoringCaseIff(a: string, b: string)
    ensures SameIgnoringCase(a, b) <==> |a| == |b| && forall k :: 0 <= k < |a| ==> SameLetter(a[k], b[k])
  {
    assert forall x: char, y: char :: Lower(x) == Lower(y) <==> SameLetter(x, y);
  }

  /** The text of this mechanism element, in any case of letters. */
  predicate Says(n: Node, mechanism: string) {
    && n.Element? && n.name == "mechanism" && n.children != [] && n.children[0].Data?
    && |n.children[0].text| == |mechanism|
    && forall k :: 0 <= k < |mechanism| ==> SameLetter(n.children[0].text[k], mechanism[k])
  }

  lemma {:induction false} IsMechanismIff(n: Node, mechanism: string)
    ensures IsMechanism(n, mechanism) <==> Says(n, mechanism)
  {
    if TextOf(n).Some? {
      SameIgnoringCaseIff(TextOf(n).value, mechanism);
    }
  }

  /** Child `k` is the first of its name, and of this namespace. */
  predicate OfferedAt(s: Node, k: nat, name: string, ns: string) {
    && s.Element? && NamedAt(s.children, k, name) && (forall j: nat :: j < k ==> !NamedAt(s.children, j, name))
    && "xmlns" in s.children[k].attributes && s.children[k].attributes["xmlns"] == ns
  }

  /** A feature is offered exactly when the first child of its name has its namespace. */
  lemma {:induction false} OffersIff(s: Node, name: string, ns: string)
    ensures Offers(s, name, ns) <==> exists k: nat :: OfferedAt(s, k, name, ns)
  {
    if s.Element? {
      hide ChildByName;
      ChildByNameIff(s.children, name, 0);
      if exists k: nat :: NamedAt(s.children, k, name) {
        var k := FirstNamed(s.children, name);
        ChildByNameIff(s.children, name, k);
        assert OfferedAt(s, k, name, ns) <==> Offers(s, name, ns);
        assert forall j: nat :: OfferedAt(s, j, name, ns) ==> j == k;
      }
    }
  }

  lemma {:induction false} FirstNamed(kids: seq<Node>, name: string) returns (k: nat)
    requires exists j: nat :: NamedAt(kids, j, name)
    ensures NamedAt(kids, k, name) && forall j: nat :: j < k ==> !NamedAt(kids, j, name)
  {
    k := 0;
    while !NamedAt(kids, k, name)
      invariant forall j: nat :: j < k ==> !NamedAt(kids, j, name)
      decreases |kids| - k
    {
      k := k + 1;
    }
  }

  /**
   Main result: a mechanism is offered if and only if some `mechanism` element under the first child
   named `mechanisms`, which is of the SASL namespace, starts with its name as text, in any case.
   */
  lemma {:induction false} OffersMechanismIff(s: Node, mechanism: string)
    ensures OffersMechanism(s, mechanism) <==>
              exists k: nat :: OfferedAt(s, k, "mechanisms", "urn:ietf:params:xml:ns:xmpp-sasl")
                && exists j :: 0 <= j < |s.children[k].children| && Says(s.children[k].children[j], mechanism)
  {
    OffersIff(s, "mechanisms", NS_SASL);
    forall k: nat | OfferedAt(s, k, "mechanisms", NS_SASL)
      ensures OffersMechanism(s, mechanism) <==>
                exists j :: 0 <= j < |s.children[k].children| && Says(s.children[k].children[j], mechanism)
    {
      MechanismAt(s, k, mechanism);
    }
    hide OfferedAt, Says, OffersMechanism, Offers;
    assert OffersMechanism(s, mechanism) ==> Offers(s, "mechanisms", NS_SASL) by { MechanismNeedsOffer(s, mechanism); }
  }

  lemma {:induction false} MechanismAt(s: Node, k: nat, mechanism: string)
    requires OfferedAt(s, k, "mechanisms", NS_SASL)
    ensures OffersMechanism(s, mechanism) <==>
              exists j :: 0 <= j < |s.children[k].children| && Says(s.children[k].children[j], mechanism)
  {
    hide ChildByName, NS_SASL, IsMechanism, Says;
    ChildByNameIff(s.children, "mechanisms", k);
    var kids := s.children[k].children;
    assert ChildByName(Children(s), "mechanisms") == Some(s.children[k]);
    assert Offers(s, "mechanisms", NS_SASL);
    assert Children(s.children[k]) == kids;
    assert OffersMechanism(s, mechanism) <==> exists j :: 0 <= j < |kids| && IsMechanism(kids[j], mechanism);
    forall j | 0 <= j < |kids|
      ensures IsMechanism(kids[j], mechanism) <==> Says(kids[j], mechanism)
    {
      IsMechanismIff(kids[j], mechanism);
    }
  }

  lemma {:induction false} MechanismNeedsOffer(s: Node, mechanism: string)
    ensures OffersMechanism(s, mechanism) ==> Offers(s, "mechanisms", NS_SASL) && s.Element?
  {
  }
}
