/**
 The domain names of src/srv.c: labels with their lengths, compression pointers, and the text
 with dots. Bytes are the integers 0 to 255.
 */
module DnsName {
  import opened Wrappers

  type Byte = b: int | 0 <= b < 256
  type Label = seq<Byte>

  const DOT: Byte := 46

  // ----- reading

  /** The offset in a compression pointer, section 4.1.4 of RFC 1035. */
  function Target(high: Byte, low: Byte): nat {
    high % 64 * 256 + low
  }

  /**
   The labels met from `p` on in at most `n` moves of the reading loop; None when the loop is
   not done by then or would leave the message.
   */
  function Walk(buf: seq<Byte>, p: nat, n: nat): Option<seq<Label>>
    decreases n
  {
    if p >= |buf| then None
    else if buf[p] == 0 then Some([])
    else if n == 0 then None
    else if buf[p] >= 192 then
      if p + 1 < |buf| then Walk(buf, Target(buf[p], buf[p + 1]), n - 1) else None
    else if p + 1 + buf[p] > |buf| then None
    else
      var rest := Walk(buf, p + 1 + buf[p], n - 1);
      if rest.None? then None else Some([buf[p + 1..p + 1 + buf[p]]] + rest.value)
  }

  lemma {:induction false} WalkedLabels(buf: seq<Byte>, p: nat, n: nat)
    requires Walk(buf, p, n).Some?
    ensures NonEmpty(Walk(buf, p, n).value)
    decreases n
  {
    if buf[p] != 0 {
      if buf[p] >= 192 {
        WalkedLabels(buf, Target(buf[p], buf[p + 1]), n - 1);
      } else {
        WalkedLabels(buf, p + 1 + buf[p], n - 1);
      }
    }
  }

  /** Where the encoding that starts at `p` ends: behind its end mark or its first pointer. */
  function End(buf: seq<Byte>, p: nat): nat
    decreases |buf| - p
  {
    if p >= |buf| then p
    else if buf[p] == 0 then p + 1
    else if buf[p] >= 192 then p + 2
    else End(buf, p + 1 + buf[p])
  }

  /**
   Every pointer met leads below the start of the run of labels that holds it. `base` is the
   start of the current run.
   */
  predicate Backward(buf: seq<Byte>, p: nat, base: nat)
    decreases base, |buf| - p
  {
    && p < |buf|
    && (buf[p] == 0
        || (if buf[p] >= 192 then
              && p + 1 < |buf|
              && Target(buf[p], buf[p + 1]) < base
              && Backward(buf, Target(buf[p], buf[p + 1]), Target(buf[p], buf[p + 1]))
            else Backward(buf, p + 1 + buf[p], base)))
  }

  /** On such a message the reading loops come to an end. */
  lemma {:induction false} BackwardEnds(buf: seq<Byte>, p: nat, base: nat) returns (n: nat)
    requires Backward(buf, p, base)
    ensures Walk(buf, p, n).Some?
    decreases base, |buf| - p
  {
    if buf[p] == 0 {
      n := 0;
    } else if buf[p] >= 192 {
      var t := Target(buf[p], buf[p + 1]);
      n := BackwardEnds(buf, t, t);
      n := n + 1;
    } else {
      n := BackwardEnds(buf, p + 1 + buf[p], base);
      n := n + 1;
    }
  }

  /** More moves change nothing. */
  lemma {:induction false} MoreMoves(buf: seq<Byte>, p: nat, n: nat, m: nat)
    requires Walk(buf, p, n).Some? && n <= m
    ensures Walk(buf, p, m) == Walk(buf, p, n)
    decreases n
  {
    if buf[p] != 0 {
      if buf[p] >= 192 {
        MoreMoves(buf, Target(buf[p], buf[p + 1]), n - 1, m - 1);
      } else {
        MoreMoves(buf, p + 1 + buf[p], n - 1, m - 1);
      }
    }
  }

  // ----- exactly when reading ends

  lemma {:induction false} Below(s: set<nat>, size: nat)
    requires forall q :: q in s ==> q < size
    ensures |s| <= size
  {
    if size == 0 {
      assert s == {};
    } else {
      Below(s - {size - 1}, size - 1);
    }
  }

  /**
   When the last of `n` moves is needed, the places met all differ: `met` is those from which at
   most `n` moves are needed, and `p` is not one of those that need fewer.
   */
  lemma {:induction false} PlacesMet(buf: seq<Byte>, p: nat, n: nat) returns (met: set<nat>)
    requires Walk(buf, p, n).Some? && (n > 0 ==> Walk(buf, p, n - 1).None?)
    ensures |met| == n + 1 && forall q :: q in met ==> q < |buf| && Walk(buf, q, n).Some?
    decreases n
  {
    if n == 0 {
      met := {p};
    } else {
      var next := if buf[p] >= 192 then Target(buf[p], buf[p + 1]) else p + 1 + buf[p];
      var rest := PlacesMet(buf, next, n - 1);
      forall q | q in rest
        ensures Walk(buf, q, n).Some?
      {
        MoreMoves(buf, q, n - 1, n);
      }
      met := rest + {p};
    }
  }

  /** So no more moves are needed than there are bytes. */
  lemma {:induction false} EndsWithin(buf: seq<Byte>, p: nat, n: nat)
    requires Walk(buf, p, n).Some?
    ensures Walk(buf, p, |buf|) == Walk(buf, p, n)
    decreases n
  {
    hide Walk;
    if n <= |buf| {
      MoreMoves(buf, p, n, |buf|);
    } else if Walk(buf, p, n - 1).Some? {
      EndsWithin(buf, p, n - 1);
      MoreMoves(buf, p, n - 1, n);
    } else {
      var met := PlacesMet(buf, p, n);
      Below(met, |buf|);
      assert false;
    }
  }

  /**
   Main result: the reading loops end inside the message, in any number of moves, if and only if
   they do so in as many moves as the message has bytes.
   */
  lemma {:induction false} EndsIffWithinLength(buf: seq<Byte>, p: nat)
    ensures (exists n: nat :: Walk(buf, p, n).Some?) <==> Walk(buf, p, |buf|).Some?
  {
    hide Walk;
    forall n: nat | Walk(buf, p, n).Some?
      ensures Walk(buf, p, |buf|).Some?
    {
      EndsWithin(buf, p, n);
    }
  }

  /** A pointer that leads to itself is never done. */
  lemma {:induction false} SelfPointerNeverEnds(n: nat)
    ensures Walk([192, 0], 0, n) == None
  {
    if n > 0 {
      SelfPointerNeverEnds(n - 1);
    }
  }

  /** A pointer forward can end as well. */
  lemma {:induction false} ForwardPointerEnds()
    ensures !Backward([192, 2, 0], 0, 0) && Walk([192, 2, 0], 0, 1) == Some([])
  {
  }

  // ----- the text of a list of labels

  predicate NonEmpty(labels: seq<Label>) {
    forall k :: 0 <= k < |labels| ==> labels[k] != []
  }

  function Join(labels: seq<Label>): seq<Byte> {
    if labels == [] then []
    else if |labels| == 1 then labels[0]
    else labels[0] + [DOT] + Join(labels[1..])
  }

  function Total(labels: seq<Label>): nat {
    if labels == [] then 0 else |labels[0]| + Total(labels[1..])
  }

  /** A label more at the end. */
  lemma {:induction false} JoinOn(labels: seq<Label>, more: Label)
    ensures Join(labels + [more]) == if labels == [] then more else Join(labels) + [DOT] + more
  {
    if labels != [] {
      JoinOn(labels[1..], more);
      assert (labels + [more])[1..] == labels[1..] + [more];
    }
  }

  lemma {:induction false} TotalOn(labels: seq<Label>, more: Label)
    ensures Total(labels + [more]) == Total(labels) + |more|
  {
    if labels != [] {
      TotalOn(labels[1..], more);
      assert (labels + [more])[1..] == labels[1..] + [more];
    }
  }

  /** Whether dots are put: not when the text starts with a byte 0, see srv.c:232. */
  predicate Dotted(labels: seq<Label>) {
    labels != [] && labels[0] != [] && labels[0][0] != 0
  }

  /** The text that is copied out. */
  function Text(labels: seq<Label>): seq<Byte> {
    if labels == [] then []
    else
      var before := labels[..|labels| - 1];
      Text(before) + (if Dotted(before) then [DOT] else []) + labels[|labels| - 1]
  }

  /** It is the labels joined with dots, unless the first byte of all is 0. */
  lemma {:induction false} TextIsJoin(labels: seq<Label>)
    requires NonEmpty(labels)
    ensures Text(labels) == Join(labels) <==> (|labels| <= 1 || labels[0][0] != 0)
    ensures |Text(labels)| == |Join(labels)| <==> (|labels| <= 1 || labels[0][0] != 0)
  {
    if |labels| > 1 {
      if labels[0][0] == 0 {
        UndottedLength(labels);
        JoinLength(labels);
      } else {
        DottedText(labels);
      }
    }
  }

  lemma {:induction false} DottedText(labels: seq<Label>)
    requires NonEmpty(labels) && labels != [] && labels[0][0] != 0
    ensures Text(labels) == Join(labels)
  {
    var n := |labels| - 1;
    JoinOn(labels[..n], labels[n]);
    assert labels == labels[..n] + [labels[n]];
    if n > 0 {
      DottedText(labels[..n]);
    }
  }

  lemma {:induction false} UndottedLength(labels: seq<Label>)
    requires NonEmpty(labels) && (labels != [] ==> labels[0][0] == 0)
    ensures |Text(labels)| == Total(labels)
  {
    if labels != [] {
      var n := |labels| - 1;
      assert labels == labels[..n] + [labels[n]];
      TotalOn(labels[..n], labels[n]);
      UndottedLength(labels[..n]);
    }
  }

  lemma {:induction false} JoinLength(labels: seq<Label>)
    ensures |Join(labels)| == Total(labels) + (if labels == [] then 0 else |labels| - 1)
  {
    if |labels| > 1 {
      JoinLength(labels[1..]);
    }
  }

  /** How many dots the text gets. */
  function Dots(labels: seq<Label>): nat {
    if Dotted(labels) then |labels| - 1 else 0
  }

  lemma {:induction false} TextLength(labels: seq<Label>)
    requires NonEmpty(labels)
    ensures |Text(labels)| == Total(labels) + Dots(labels)
  {
    if labels == [] || labels[0][0] == 0 {
      UndottedLength(labels);
    } else {
      DottedText(labels);
      JoinLength(labels);
    }
  }

  /**
   Main result: a field of `size` bytes takes the text and its end mark if and only if there is
   room for the labels and a byte for each of them. The reading code compares the labels alone, so it
   lets through exactly the names between the two bounds as well.
   */
  lemma {:induction false} TextFitsIff(labels: seq<Label>, size: nat)
    requires NonEmpty(labels)
    ensures |Text(labels)| < size <==> Total(labels) + Dots(labels) + 1 <= size
    ensures Dotted(labels) ==> (|Text(labels)| < size <==> Total(labels) + |labels| <= size)
    ensures Total(labels) <= size <= |Text(labels)| <==> size - Dots(labels) <= Total(labels) <= size
  {
    TextLength(labels);
    hide Text, Total;
  }

  // ----- the reading loops

  /** One move of a reading loop, with the labels already met in `done`. */
  lemma {:induction false} LabelMove(buf: seq<Byte>, p: nat, n: nat)
    requires Walk(buf, p, n).Some? && buf[p] != 0
    ensures n > 0 && p + 1 < |buf|
    ensures buf[p] >= 192 ==> Walk(buf, Target(buf[p], buf[p + 1]), n - 1) == Walk(buf, p, n)
    ensures buf[p] < 192 ==>
              && p + 1 + buf[p] <= |buf| && Walk(buf, p + 1 + buf[p], n - 1).Some?
              && Walk(buf, p, n).value == [buf[p + 1..p + 1 + buf[p]]] + Walk(buf, p + 1 + buf[p], n - 1).value
  {
  }

  lemma {:induction false} EndMove(buf: seq<Byte>, p: nat)
    requires p < |buf|
    ensures End(buf, p) == if buf[p] == 0 then p + 1 else if buf[p] >= 192 then p + 2 else End(buf, p + 1 + buf[p])
  {
  }

  lemma {:induction false} WalkHere(buf: seq<Byte>, p: nat, n: nat)
    requires Walk(buf, p, n).Some?
    ensures p < |buf| && (buf[p] == 0 ==> Walk(buf, p, n).value == [])
  {
  }

  /** calc_domain_name_size: the length of the labels joined with dots. */
  method CalcDomainNameSize(buf: array<Byte>, offset: nat, ghost n: nat) returns (len: nat)
    requires Walk(buf[..], offset, n).Some?
    ensures len == |Join(Walk(buf[..], offset, n).value)|
  {
    hide Walk, Join;
    var p: nat := offset;
    len := 0;
    WalkHere(buf[..], p, n);
    JoinNone();
    ghost var done: seq<Label>, left := [], n;
    ghost var all := Walk(buf[..], offset, n).value;
    WalkedLabels(buf[..], offset, n);
    while buf[p] != 0
      invariant Walk(buf[..], p, left).Some? && p < buf.Length
      invariant buf[p] == 0 ==> Walk(buf[..], p, left).value == []
      invariant all == done + Walk(buf[..], p, left).value
      invariant len == |Join(done)| && (len == 0 <==> done == [])
      decreases left
    {
      LabelMove(buf[..], p, left);
      if buf[p] >= 192 {
        p := Target(buf[p], buf[p + 1]);
      } else {
        if len != 0 {
          len := len + 1;
        }
        ghost var met: Label := buf[..][p + 1..p + 1 + buf[p]];
        JoinOn(done, met);
        done := done + [met];
        len := len + buf[p];
        p := p + 1 + buf[p];
      }
      left := left - 1;
      WalkHere(buf[..], p, left);
    }
    assert done + [] == done;
  }

  lemma {:induction false} NoneEmpty()
    ensures NonEmpty([])
  {
  }

  lemma {:induction false} JoinNone()
    ensures Join([]) == [] && Total([]) == 0 && Text([]) == []
  {
  }

  /** The first loop of netbuf_get_domain_name: the length of the labels without dots. */
  method Measure(buf: array<Byte>, offset: nat, ghost n: nat) returns (len: nat)
    requires Walk(buf[..], offset, n).Some?
    ensures len == Total(Walk(buf[..], offset, n).value)
  {
    hide Walk, Total;
    var p: nat := offset;
    len := 0;
    WalkHere(buf[..], p, n);
    JoinNone();
    ghost var done: seq<Label>, left := [], n;
    ghost var all := Walk(buf[..], offset, n).value;
    while buf[p] != 0
      invariant Walk(buf[..], p, left).Some? && p < buf.Length
      invariant buf[p] == 0 ==> Walk(buf[..], p, left).value == []
      invariant all == done + Walk(buf[..], p, left).value
      invariant len == Total(done)
      decreases left
    {
      LabelMove(buf[..], p, left);
      if buf[p] >= 192 {
        p := Target(buf[p], buf[p + 1]);
      } else {
        ghost var met: Label := buf[..][p + 1..p + 1 + buf[p]];
        TotalOn(done, met);
        done := done + [met];
        len := len + buf[p];
        p := p + 1 + buf[p];
      }
      left := left - 1;
      WalkHere(buf[..], p, left);
    }
    assert done + [] == done;
  }

  /** The inner loop: one label behind what is already copied. */
  method CopyLabel(buf: array<Byte>, p: nat, namebuf: array<Byte>, p2: nat, partlen: nat)
    requires buf != namebuf && p + partlen <= buf.Length && p2 + partlen <= namebuf.Length
    modifies namebuf
    ensures namebuf[..p2 + partlen] == old(namebuf[..p2]) + buf[p..p + partlen]
    ensures namebuf[p2 + partlen..] == old(namebuf[p2 + partlen..])
  {
    var i := 0;
    while i < partlen
      invariant i <= partlen
      invariant namebuf[..p2 + i] == old(namebuf[..p2]) + buf[p..p + i]
      invariant namebuf[p2 + partlen..] == old(namebuf[p2 + partlen..])
    {
      namebuf[p2 + i] := buf[p + i];
      i := i + 1;
    }
  }

  lemma {:induction false} TextOn(labels: seq<Label>, more: Label)
    requires NonEmpty(labels) && more != []
    ensures NonEmpty(labels + [more])
    ensures Text(labels + [more]) == Text(labels) + (if Dotted(labels) then [DOT] else []) + more
  {
    assert (labels + [more])[..|labels|] == labels;
  }

  /** The text starts with the first byte of the first label. */
  lemma {:induction false} TextStart(labels: seq<Label>)
    requires NonEmpty(labels) && labels != []
    ensures Text(labels) != [] && Text(labels)[0] == labels[0][0]
  {
    if |labels| > 1 {
      TextStart(labels[..|labels| - 1]);
    }
  }

  /** Texts only grow. */
  lemma {:induction false} TextPrefix(labels: seq<Label>, more: seq<Label>)
    requires NonEmpty(labels + more)
    ensures NonEmpty(labels) && |Text(labels)| <= |Text(labels + more)|
  {
    assert forall k :: 0 <= k < |labels| ==> labels[k] == (labels + more)[k];
    if more != [] {
      var init := more[..|more| - 1];
      assert (labels + more)[..|labels + more| - 1] == labels + init;
      TextPrefix(labels, init);
    } else {
      assert labels + more == labels;
    }
  }

  /**
   One label, with a dot before it unless `namebuf` still starts with its end mark, if the field
   has room for it.
   */
  method CopyPart(buf: array<Byte>, p: nat, namebuf: array<Byte>, p2: nat, ghost done: seq<Label>)
    returns (inside: bool, p2': nat)
    requires buf != namebuf && namebuf.Length > 0 && p < buf.Length && 0 < buf[p] && p + 1 + buf[p] <= buf.Length
    requires NonEmpty(done) && p2 == |Text(done)| <= namebuf.Length && namebuf[..p2] == Text(done)
    requires done == [] ==> namebuf[0] == 0
    modifies namebuf
    ensures var text := Text(done + [buf[..][p + 1..p + 1 + buf[p]]]);
            inside == (|text| <= namebuf.Length) && (inside ==> p2' == |text| && namebuf[..p2'] == text)
  {
    hide Text;
    ghost var met: Label := buf[..][p + 1..p + 1 + buf[p]];
    TextOn(done, met);
    JoinNone();
    if done != [] {
      TextStart(done);
      assert namebuf[0] == namebuf[..p2][0];
    }
    p2' := p2;
    if namebuf[0] != 0 {
      if p2' == namebuf.Length {
        return false, p2';
      }
      namebuf[p2'] := DOT;
      p2' := p2' + 1;
      assert namebuf[..p2'] == Text(done) + [DOT];
    }
    if p2' + buf[p] > namebuf.Length {
      return false, p2';
    }
    CopyLabel(buf, p + 1, namebuf, p2', buf[p]);
    assert buf[p + 1..p + 1 + buf[p]] == met;
    p2' := p2' + buf[p];
    inside := true;
  }

  /**
   The second loop: the text is copied as far as the field goes, and the offset moves at the first
   pointer or the end.
   */
  method CopyName(buf: array<Byte>, offset: nat, namebuf: array<Byte>, ghost n: nat)
    returns (inside: bool, p2: nat, offset': nat)
    requires buf != namebuf && namebuf.Length > 0 && namebuf[0] == 0
    requires Walk(buf[..], offset, n).Some?
    modifies namebuf
    ensures var text := Text(Walk(buf[..], offset, n).value);
            && inside == (|text| <= namebuf.Length)
            && (inside ==> offset' == End(buf[..], offset) && p2 == |text| && namebuf[..p2] == text)
  {
    hide Walk, Text, End, NonEmpty;
    ghost var message := buf[..];
    ghost var all := Walk(message, offset, n).value;
    ghost var done: seq<Label>, left := [], n;
    JoinNone();
    NoneEmpty();
    WalkHere(message, offset, n);
    WalkedLabels(message, offset, n);
    var p: nat, jumped := offset, false;
    p2, offset' := 0, offset;
    while buf[p] != 0
      invariant buf[..] == message && Walk(message, p, left).Some? && p < buf.Length
      invariant buf[p] == 0 ==> Walk(message, p, left).value == []
      invariant all == done + Walk(message, p, left).value && NonEmpty(done)
      invariant p2 == |Text(done)| <= namebuf.Length && namebuf[..p2] == Text(done)
      invariant done == [] ==> namebuf[0] == 0
      invariant if jumped then offset' == End(message, offset)
                else offset' == offset && End(message, p) == End(message, offset)
      decreases left
    {
      LabelMove(message, p, left);
      EndMove(message, p);
      if buf[p] >= 192 {
        if !jumped {
          offset' := offset + (p + 2 - offset);
          jumped := true;
        }
        p := Target(buf[p], buf[p + 1]);
      } else {
        Stretch(done, message[p + 1..p + 1 + message[p]], all);
        inside, p2 := CopyPart(buf, p, namebuf, p2, done);
        assert buf[..] == message;
        if !inside {
          return;
        }
        done := done + [message[p + 1..p + 1 + message[p]]];
        p := p + 1 + buf[p];
      }
      left := left - 1;
      WalkHere(message, p, left);
    }
    EndMove(message, p);
    if !jumped {
      offset' := offset + (p + 1 - offset);
    }
    assert done + [] == done;
    inside := true;
  }

  /**
   netbuf_get_domain_name. When the labels measure more than `namebuflen` their length is
   returned and the offset stays. Otherwise the copy stays inside the field if and only if the text
   and its end mark fit; then they are copied out, and the offset moves past the encoding in place,
   not past anything a pointer leads to.
   */
  method GetDomainName(buf: array<Byte>, offset: nat, namebuf: array<Byte>, namebuflen: nat, ghost n: nat)
    returns (inside: bool, r: nat, offset': nat)
    requires buf != namebuf && namebuf.Length > 0
    requires Walk(buf[..], offset, n).Some?
    modifies namebuf
    ensures var labels := Walk(buf[..], offset, n).value;
            if namebuflen < Total(labels) then
              inside && r == Total(labels) && offset' == offset && namebuf[0] == 0
            else
              && inside == (|Text(labels)| < namebuf.Length)
              && (inside ==> r == 0 && offset' == End(buf[..], offset)
                             && namebuf[..|Text(labels)| + 1] == Text(labels) + [0])
  {
    hide Walk, Text, Total;
    ghost var message := buf[..];
    namebuf[0] := 0;
    r := Measure(buf, offset, n);
    if namebuflen < r {
      return true, r, offset;
    }
    var p2: nat;
    inside, p2, offset' := CopyName(buf, offset, namebuf, n);
    assert buf[..] == message;
    if !inside || p2 == namebuf.Length {
      return false, r, offset';
    }
    namebuf[p2] := 0;
    r := 0;
  }

  lemma {:induction false} Stretch(done: seq<Label>, met: Label, all: seq<Label>)
    requires NonEmpty(all) && NonEmpty(done) && done + [met] <= all
    ensures met != [] && NonEmpty(done + [met]) && |Text(done + [met])| <= |Text(all)|
    ensures Text(done + [met]) == Text(done) + (if done != [] && done[0][0] != 0 then [DOT] else []) + met
  {
    assert all[|done|] == met;
    TextOn(done, met);
    TextPrefix(done + [met], all[|done| + 1..]);
    assert done + [met] + all[|done| + 1..] == all;
  }
}
