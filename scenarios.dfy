/**
 * Client-side consequences of the dispatcher's contracts, derived from what
 * `Add`, `Supports` and `Process` promise. `ChainedRegistrations` follows
 * the repository's two dispatcher tests on their three-entry setup;
 * `EmptyDispatcher` and `DefaultRegistration` are further scenarios of this
 * model that no repository test covers.
 */
module ChainExamples {
  import opened Component
  import opened Chain

  /** A stand-in for the example processor the tests register: accepts
      exactly the requests with the given name and answers them with the
      given output. */
  function KeyedProcessor(key: string, out: Value, status: StatusCode): (p: Processor)
    ensures forall r :: p.accepts(r) <==> r.name == key
    ensures forall r :: p.handle(r).output == Some(out)
  {
    Processor((r: Request) => r.name == key, (r: Request) => Response(r, Some(out), status, map[]))
  }

  /** A fresh dispatcher supports nothing and answers the sentinel. */
  method EmptyDispatcher(r: Request)
  {
    var chain := new ChainProcessor();
    var b := chain.Supports(r);
    assert !b;
    var resp := chain.Process(r);
    assert resp.request == r && resp.output == None && resp.status == NotImplemented;
  }

  /** Three registrations chained fluently: two processors for "foo" at
      priorities 5 and 3, one for "bar" at priority 1. */
  method ChainedRegistrations(status: StatusCode)
  {
    var foo := KeyedProcessor("foo", Text("bar"), status);
    var bar := KeyedProcessor("bar", Text("foo"), status);
    var i1, i2, i3 := Item(foo, "p1", 5), Item(foo, "p2", 3), Item(bar, "p3", 1);

    var chain := new ChainProcessor();
    var c := chain.Add(foo, "p1", 5);
    c := c.Add(foo, "p2", 3);
    c := c.Add(bar, "p3", 1);
    assert c == chain;
    assert multiset(chain.items) == multiset{i1, i2, i3};

    // nothing is registered for "foobar"
    var foobar := Request("foobar");
    assert forall i :: 0 <= i < |chain.items| ==> chain.items[i] in multiset{i1, i2, i3};
    var b := chain.Supports(foobar);
    assert !b;
    var resp := chain.Process(foobar);
    assert resp.status == NotImplemented;

    // "foo" goes to the lower priority of the two "foo" processors
    var req := Request("foo");
    b := chain.Supports(req);
    assert i2 in multiset(chain.items);
    assert b;
    resp := chain.Process(req);
    FirstMatchHasLowestPriority(chain.items, req);
    var k := FirstMatch(chain.items, req).value;
    assert chain.items[k] in multiset{i1, i2, i3};
    assert chain.items[k] == i2;
    assert resp.output == Some(Text("bar"));
    assert resp.extras[NameKey] == Text("p2");

    // asking again gives the same answer
    var again := chain.Process(req);
    assert again == resp;
  }

  /** Registering without a name or priority uses the empty name and
      priority 10. */
  method DefaultRegistration(p: Processor)
  {
    var chain := new ChainProcessor();
    var c := chain.Add(p);
    assert multiset(chain.items) == multiset{Item(p, "", 10)};
    assert |chain.items| == 1 && chain.items[0] in multiset(chain.items);
    assert chain.items == [Item(p, "", 10)];
  }
}
