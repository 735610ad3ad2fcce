/**
 The printer puts attribute values between apostrophes but does not escape apostrophes in
 them, so the round trip holds exactly for trees whose values have none.
 */
module StanzaApostrophe {
  import opened Wrappers
  import opened Stanza
  import opened StanzaReader
  import opened StanzaReading

  /** No apostrophe in the name or in a value of a start event. */
  predicate QuotelessEvent(e: Event) {
    e.Start? ==> '\'' !in e.name && QuoteFree(e.attributes)
  }

  predicate Quoteless(events: seq<Event>) {
    forall k :: 0 <= k < |events| ==> QuotelessEvent(events[k])
  }

  predicate QuotelessScopes(scopes: seq<Scope>) {
    forall k :: 0 <= k < |scopes| ==> '\'' !in scopes[k].ns
  }

  lemma {:induction false} ValueQuoteless(text: string)
    ensures ReadValue(text).Some? ==> '\'' !in ReadValue(text).value.0
    decreases |text|
  {
    if (text == "" || text[0] != '\'') && ReadChar(text).Some? {
      ValueQuoteless(ReadChar(text).value.1);
    }
  }

  lemma {:induction false} AttributesQuoteless(text: string)
    ensures ReadAttributes(text).Some? ==> QuoteFree(ReadAttributes(text).value.0)
    decreases |text|
  {
    if ReadAttributes(text).Some? && !StartsWith(text, ">") && !StartsWith(text, "/>") {
      var (key, rest) := SplitName(text[1..]);
      ValueQuoteless(rest[2..]);
      AttributesQuoteless(ReadValue(rest[2..]).value.1);
    }
  }

  lemma {:induction false} NameQuoteless(text: string)
    ensures '\'' !in SplitName(text).0
  {
    if text != "" && NameChar(text[0]) {
      NameQuoteless(text[1..]);
    }
  }

  lemma {:induction false} FilterQuoteless(attributes: Attributes)
    requires QuoteFree(attributes)
    ensures QuoteFree(Without(attributes, XMLNS))
    ensures Lookup(attributes, XMLNS).Some? ==> '\'' !in Lookup(attributes, XMLNS).value
  {
    if attributes != [] {
      FilterQuoteless(attributes[1..]);
    }
  }

  /** Whatever the text, a reader never reports an apostrophe inside a value. */
  lemma {:induction false} ReadQuoteless(text: string, scopes: seq<Scope>)
    requires QuotelessScopes(scopes)
    ensures Read(text, scopes).Some? ==> Quoteless(Read(text, scopes).value.0)
    decreases |text|, 1
  {
    if text == "" {
    } else if StartsWith(text, "</") {
      var (name, rest) := SplitName(text[2..]);
      if scopes != [] && StartsWith(rest, ">") {
        ReadQuoteless(rest[1..], scopes[..|scopes| - 1]);
      }
    } else if StartsWith(text, "<") {
      ElementQuoteless(text, scopes);
    } else if ReadChar(text).Some? {
      ReadQuoteless(ReadChar(text).value.1, scopes);
    }
  }

  lemma {:induction false} ElementQuoteless(text: string, scopes: seq<Scope>)
    requires QuotelessScopes(scopes) && StartsWith(text, "<")
    ensures ReadElement(text, scopes).Some? ==> Quoteless(ReadElement(text, scopes).value.0)
    decreases |text|, 0
  {
    var (name, rest) := SplitName(text[1..]);
    if name != "" && scopes != [] && ReadAttributes(rest).Some? {
      var (attributes, empty, tail) := ReadAttributes(rest).value;
      NameQuoteless(text[1..]);
      AttributesQuoteless(rest);
      FilterQuoteless(attributes);
      var ns := Resolve(attributes, scopes[|scopes| - 1].ns);
      if empty {
        ReadQuoteless(tail, scopes);
      } else {
        ReadQuoteless(tail, scopes + [Scope(name, ns)]);
      }
    }
  }

  /** An apostrophe in some value shows in the events the tree stands for. */
  lemma {:induction false} QuoteShows(t: Stanza, ns: string)
    requires Loose(t) && Quoteless(EventsOf(t, ns))
    ensures ApostropheFree(t)
    decreases t
  {
    if t.Tag? {
      var own := Resolve(t.attributes, ns);
      var events, inner := EventsOf(t, ns), EventsOfAll(t.children, own);
      assert QuotelessEvent(events[0]);
      StartShows(t.name.value, t.attributes, ns);
      assert forall k :: 0 <= k < |inner| ==> inner[k] == events[k + 1];
      QuoteShowsAll(t.children, own);
    }
  }

  lemma {:induction false} QuoteShowsAll(ts: seq<Stanza>, ns: string)
    requires (forall k :: 0 <= k < |ts| ==> Loose(ts[k])) && Quoteless(EventsOfAll(ts, ns))
    ensures forall k :: 0 <= k < |ts| ==> ApostropheFree(ts[k])
    decreases ts
  {
    if ts != [] {
      var events, first, more := EventsOfAll(ts, ns), EventsOf(ts[0], ns), EventsOfAll(ts[1..], ns);
      assert events == first + more;
      assert forall k :: 0 <= k < |first| ==> first[k] == events[k];
      assert forall k :: 0 <= k < |more| ==> more[k] == events[|first| + k];
      QuoteShows(ts[0], ns);
      QuoteShowsAll(ts[1..], ns);
    }
  }

  lemma {:induction false} StartShows(name: string, attributes: Attributes, ns: string)
    requires '\'' !in Qualified(Resolve(attributes, ns), name)
    requires QuoteFree(Without(attributes, XMLNS)) && LooseAttributes(attributes)
    ensures QuoteFree(attributes)
  {
    var own := Resolve(attributes, ns);
    assert '\'' !in own by {
      if own != "" {
        assert forall k :: 0 <= k < |own| ==> own[k] == Qualified(own, name)[k];
      }
    }
    FilterShows(attributes);
  }

  lemma {:induction false} QuoteFreeFirst(attributes: Attributes)
    requires attributes != []
    ensures QuoteFree(attributes) <==> '\'' !in attributes[0].1 && QuoteFree(attributes[1..])
  {
    assert forall k :: 0 <= k < |attributes[1..]| ==> attributes[1..][k] == attributes[k + 1];
    if '\'' !in attributes[0].1 && QuoteFree(attributes[1..]) {
      assert forall k :: 1 <= k < |attributes| ==> attributes[k] == attributes[1..][k - 1];
    }
  }

  lemma {:induction false} FilterShows(attributes: Attributes)
    requires QuoteFree(Without(attributes, XMLNS)) && LooseAttributes(attributes)
    requires Lookup(attributes, XMLNS).Some? ==> '\'' !in Lookup(attributes, XMLNS).value
    ensures QuoteFree(attributes)
  {
    if attributes != [] {
      hide QuoteFree, LooseAttribute;
      QuoteFreeFirst(attributes);
      var rest, all := Without(attributes[1..], XMLNS), Without(attributes, XMLNS);
      if attributes[0].0 == XMLNS {
        assert all == rest;
      } else {
        assert all == [attributes[0]] + rest && all[1..] == rest;
        QuoteFreeFirst(all);
      }
      FilterShows(attributes[1..]);
    }
  }

  /**
   Main result: the text of a tree reads back as the events of that tree exactly when none
   of its attribute values contains an apostrophe.
   */
  lemma {:induction false} ReadsBackIffNoApostrophe(t: Stanza, scopes: seq<Scope>)
    requires Loose(t) && scopes != [] && scopes[|scopes| - 1].ns == NS_CLIENT && QuotelessScopes(scopes)
    ensures Render(t, None).Some?
    ensures Read(Render(t, None).value, scopes) == Some((EventsOf(t, NS_CLIENT), scopes)) <==> ApostropheFree(t)
  {
    hide Loose, ApostropheFree, Read, EventsOf;
    LooseRenders(t, None);
    var text := Render(t, None).value;
    if ApostropheFree(t) {
      ReadRendered(t, None, NS_CLIENT, scopes, "");
      assert text + "" == text;
      EmptyRead(scopes);
      assert EventsOf(t, NS_CLIENT) + [] == EventsOf(t, NS_CLIENT);
    } else if Read(text, scopes) == Some((EventsOf(t, NS_CLIENT), scopes)) {
      ReadQuoteless(text, scopes);
      QuoteShows(t, NS_CLIENT);
    }
  }

  lemma {:induction false} EmptyRead(scopes: seq<Scope>)
    ensures Read("", scopes) == Some(([], scopes))
  {
  }
}
