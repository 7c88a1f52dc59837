/**
 * The chain-of-responsibility dispatcher: an ordered list of entries, kept
 * sorted by ascending priority, that answers `supports` and `process` by
 * asking each entry's processor in turn and stopping at the first that
 * accepts the request.
 */
module Chain {
  import opened Component

  /** The metadata key under which `process` records the handling entry. */
  const NameKey: string := "name"

  /** The priority the source gives an entry registered without one. */
  const DefaultPriority: int := 10

  /** Entries appear in non-decreasing order of priority. */
  predicate SortedByPriority(s: seq<Item>)
  {
    forall i, j :: 0 <= i < j < |s| ==> s[i].priority <= s[j].priority
  }

  /** Some entry of the list accepts the request. */
  predicate AnyAccepts(s: seq<Item>, r: Request)
  {
    exists i :: 0 <= i < |s| && Accepts(s[i], r)
  }

  /** The position of the first entry that accepts the request, if any: the
      entry a front-to-back scan stops at. */
  function FirstMatch(s: seq<Item>, r: Request): (k: Option<nat>)
    ensures k.Some? <==> AnyAccepts(s, r)
    ensures k.Some? ==> k.value < |s| && Accepts(s[k.value], r)
    ensures k.Some? ==> forall j :: 0 <= j < k.value ==> !Accepts(s[j], r)
  {
    if |s| == 0 then None
    else if Accepts(s[0], r) then Some(0)
    else
      match FirstMatch(s[1..], r)
      case Some(k) => Some(k + 1)
      case None => None
  }

  /** The response of a scan that finds nothing, built as
      `new Response(request, null, NOT_IMPLEMENTED)`: no extra metadata. */
  function NotImplementedResponse(r: Request): (resp: Response)
    ensures resp.request == r && resp.output == None && resp.status == NotImplemented
    ensures |resp.extras| == 0
  {
    Response(r, None, NotImplemented, map[])
  }

  /** What the dispatcher answers for a request: the first accepting entry's
      response, tagged with that entry's name, or the sentinel. */
  function Dispatch(s: seq<Item>, r: Request): (resp: Response)
    ensures !AnyAccepts(s, r) ==> resp == NotImplementedResponse(r)
    ensures AnyAccepts(s, r) ==>
      exists k :: 0 <= k < |s| && Accepts(s[k], r) &&
        (forall j :: 0 <= j < k ==> !Accepts(s[j], r)) &&
        resp == SetExtra(s[k].processor.handle(r), NameKey, Text(s[k].name))
  {
    match FirstMatch(s, r)
    case Some(k) => SetExtra(s[k].processor.handle(r), NameKey, Text(s[k].name))
    case None => NotImplementedResponse(r)
  }

  /** On a sorted list the first accepting entry has the lowest priority of
      all accepting entries. */
  lemma FirstMatchHasLowestPriority(s: seq<Item>, r: Request)
    requires SortedByPriority(s)
    requires AnyAccepts(s, r)
    ensures forall j :: 0 <= j < |s| && Accepts(s[j], r) ==>
      s[FirstMatch(s, r).value].priority <= s[j].priority
  {
  }

  /** Inserts one entry into a sorted list after every entry whose priority
      is not greater than its own. */
  method InsertByPriority(s: seq<Item>, x: Item) returns (t: seq<Item>)
    requires SortedByPriority(s)
    ensures SortedByPriority(t)
    ensures multiset(t) == multiset(s) + multiset{x}
  {
    var k := 0;
    while k < |s| && s[k].priority <= x.priority
      invariant 0 <= k <= |s|
      invariant forall j :: 0 <= j < k ==> s[j].priority <= x.priority
    {
      k := k + 1;
    }
    assert forall j :: k <= j < |s| ==> x.priority <= s[j].priority by {
      if k < |s| {
        assert x.priority < s[k].priority;
      }
    }
    t := s[..k] + [x] + s[k..];
    InsertedIsSorted(s, x, k);
    assert s == s[..k] + s[k..];
  }

  /** Placing an entry between a prefix of lower-or-equal priorities and a
      suffix of higher-or-equal priorities keeps a sorted list sorted. */
  lemma InsertedIsSorted(s: seq<Item>, x: Item, k: nat)
    requires SortedByPriority(s)
    requires k <= |s|
    requires forall j :: 0 <= j < k ==> s[j].priority <= x.priority
    requires forall j :: k <= j < |s| ==> x.priority <= s[j].priority
    ensures SortedByPriority(s[..k] + [x] + s[k..])
  {
  }

  /** Sorts a list of entries by ascending priority (the `usort` call with a
      priority comparator). */
  method SortByPriority(s: seq<Item>) returns (t: seq<Item>)
    ensures SortedByPriority(t)
    ensures multiset(t) == multiset(s)
  {
    t := [];
    var i := 0;
    while i < |s|
      invariant 0 <= i <= |s|
      invariant SortedByPriority(t)
      invariant multiset(t) == multiset(s[..i])
    {
      t := InsertByPriority(t, s[i]);
      assert s[..i + 1] == s[..i] + [s[i]];
      i := i + 1;
    }
    assert s[..|s|] == s;
  }

  /** The dispatcher. Its only state is the list of registered entries. */
  class ChainProcessor {
    var items: seq<Item>

    /** The list is sorted by priority, as every registration leaves it. */
    ghost predicate Valid()
      reads this
    {
      SortedByPriority(items)
    }

    constructor ()
      ensures Valid()
      ensures items == []
    {
      items := [];
    }

    /** Registers a processor under a name and a priority, re-sorts the
        entries and returns this same dispatcher for chaining. */
    method Add(processor: Processor, name: string := "", priority: int := DefaultPriority)
      returns (self: ChainProcessor)
      modifies this
      ensures self == this
      ensures Valid()
      ensures |items| == |old(items)| + 1
      ensures multiset(items) == multiset(old(items)) + multiset{Item(processor, name, priority)}
    {
      items := items + [Item(processor, name, priority)];
      items := SortByPriority(items);
      assert |multiset(items)| == |items|;
      self := this;
    }

    /** Whether some registered processor accepts the request; stops at the
        first that does. */
    method Supports(r: Request) returns (b: bool)
      ensures b <==> AnyAccepts(items, r)
      ensures b <==> FirstMatch(items, r).Some?
    {
      var i := 0;
      while i < |items|
        invariant 0 <= i <= |items|
        invariant forall j :: 0 <= j < i ==> !Accepts(items[j], r)
      {
        if items[i].processor.accepts(r) {
          return true;
        }
        i := i + 1;
      }
      return false;
    }

    /** Delegates the request to the first accepting processor and tags its
        response with that entry's name; answers the not-implemented
        sentinel when no processor accepts it. */
    method Process(r: Request) returns (resp: Response)
      ensures resp == Dispatch(items, r)
      ensures FirstMatch(items, r).None? ==> resp == NotImplementedResponse(r)
      ensures FirstMatch(items, r).Some? ==>
        var item := items[FirstMatch(items, r).value];
        resp == SetExtra(item.processor.handle(r), NameKey, Text(item.name))
      ensures Valid() && FirstMatch(items, r).Some? ==>
        forall j :: 0 <= j < |items| && Accepts(items[j], r) ==>
          items[FirstMatch(items, r).value].priority <= items[j].priority
    {
      if Valid() && AnyAccepts(items, r) {
        FirstMatchHasLowestPriority(items, r);
      }
      var i := 0;
      while i < |items|
        invariant 0 <= i <= |items|
        invariant forall j :: 0 <= j < i ==> !Accepts(items[j], r)
      {
        var processor := items[i].processor;
        if processor.accepts(r) {
          resp := processor.handle(r);
          resp := SetExtra(resp, NameKey, Text(items[i].name));
          FirstMatchIs(items, r, i);
          return;
        }
        i := i + 1;
      }
      resp := NotImplementedResponse(r);
    }
  }

  /** A position that accepts, with nothing accepting before it, is the
      first match. */
  lemma FirstMatchIs(s: seq<Item>, r: Request, k: nat)
    requires k < |s| && Accepts(s[k], r)
    requires forall j :: 0 <= j < k ==> !Accepts(s[j], r)
    ensures FirstMatch(s, r) == Some(k)
  {
  }
}
