/**
 * The message context: the store of parsed messages and terms that a
 * localization bundle is built from. Messages (public) and terms (private,
 * identifiers starting with '-') live in two separate maps; adding never
 * overwrites, a clash is reported as an error and the first definition stays.
 * Only messages are visible through HasMessage and GetMessage.
 *
 * The parser is outside the model: AddMessages receives a resource that has
 * already been parsed into entries, together with the parser's own errors.
 */
module MessageContexts {
  import opened Wrappers

  /** Term identifiers are the ones with a leading '-'; they are stored with it. */
  predicate IsTermId(id: string) {
    |id| > 0 && id[0] == '-'
  }

  /** A runtime message whose value is a literal string expression. */
  datatype Message = Message(value: string)

  /** One parsed definition: its identifier as written and its message. */
  datatype Entry = Entry(id: string, message: Message)

  /** What the parser yields for one source text: its definitions in order, and its syntax errors. */
  datatype Resource = Resource(entries: seq<Entry>, errors: seq<string>)

  datatype ContextError =
    | ParseError(text: string)  // a syntax error surfaced from the parser
    | OverrideError(id: string) // an attempt to redefine an existing message or term

  /** An error reported while formatting; literal messages produce none. */
  datatype FormatError = FormatError(text: string)

  /** The two maps of a context. */
  datatype Registry = Registry(messages: map<string, Message>, terms: map<string, Message>)

  /** Namespace separation: message keys never start with '-', term keys always do. */
  predicate Separated(r: Registry) {
    (forall id :: id in r.messages ==> !IsTermId(id)) &&
    (forall id :: id in r.terms ==> IsTermId(id))
  }

  /** Whether `id` is already taken in the map its prefix routes it to. */
  predicate Defined(r: Registry, id: string) {
    if IsTermId(id) then id in r.terms else id in r.messages
  }

  /** The definition stored under `id` in the map its prefix routes it to. */
  function Stored(r: Registry, id: string): Option<Message> {
    if IsTermId(id) then (if id in r.terms then Some(r.terms[id]) else None)
    else (if id in r.messages then Some(r.messages[id]) else None)
  }

  /** Registers one entry: a clash leaves the registry as it was and yields one error. */
  function AddEntry(r: Registry, e: Entry): (Registry, seq<ContextError>) {
    if Defined(r, e.id) then (r, [OverrideError(e.id)])
    else if IsTermId(e.id) then (r.(terms := r.terms[e.id := e.message]), [])
    else (r.(messages := r.messages[e.id := e.message]), [])
  }

  /** Registers the entries in order, collecting the clash errors. */
  function AddAll(r: Registry, es: seq<Entry>): (Registry, seq<ContextError>)
    decreases |es|
  {
    if es == [] then (r, [])
    else
      var (r1, errs1) := AddAll(r, es[..|es| - 1]);
      var (r2, errs2) := AddEntry(r1, es[|es| - 1]);
      (r2, errs1 + errs2)
  }

  /** The identifiers of the entries that go to the public map. */
  function MessageIds(es: seq<Entry>): set<string> {
    set i | 0 <= i < |es| && !IsTermId(es[i].id) :: es[i].id
  }

  /** The identifiers of the entries that go to the term map. */
  function TermIds(es: seq<Entry>): set<string> {
    set i | 0 <= i < |es| && IsTermId(es[i].id) :: es[i].id
  }

  /** Index i is the first entry with its identifier. */
  predicate FirstOfId(es: seq<Entry>, i: int)
    requires 0 <= i < |es|
  {
    forall j :: 0 <= j < i ==> es[j].id != es[i].id
  }

  lemma AddAllStep(r: Registry, es: seq<Entry>, e: Entry)
    ensures AddAll(r, es + [e]).0 == AddEntry(AddAll(r, es).0, e).0
    ensures AddAll(r, es + [e]).1 == AddAll(r, es).1 + AddEntry(AddAll(r, es).0, e).1
  {
    assert (es + [e])[..|es + [e]| - 1] == es;
  }

  /** Adding keeps the two namespaces apart. */
  lemma {:induction false} AddAllSeparated(r: Registry, es: seq<Entry>)
    requires Separated(r)
    ensures Separated(AddAll(r, es).0)
    decreases |es|
  {
    if es != [] {
      AddAllSeparated(r, es[..|es| - 1]);
    }
  }

  /** First writer wins: every identifier already stored keeps its definition. */
  lemma {:induction false} AddAllKeepsExisting(r: Registry, es: seq<Entry>)
    ensures var r' := AddAll(r, es).0;
      (forall id :: id in r.messages ==> id in r'.messages && r'.messages[id] == r.messages[id]) &&
      (forall id :: id in r.terms ==> id in r'.terms && r'.terms[id] == r.terms[id])
    decreases |es|
  {
    if es != [] {
      AddAllKeepsExisting(r, es[..|es| - 1]);
    }
  }

  /** Afterwards each map holds exactly its old keys plus the identifiers routed to it. */
  lemma {:induction false} AddAllKeys(r: Registry, es: seq<Entry>)
    ensures AddAll(r, es).0.messages.Keys == r.messages.Keys + MessageIds(es)
    ensures AddAll(r, es).0.terms.Keys == r.terms.Keys + TermIds(es)
    decreases |es|
  {
    if es != [] {
      var init, e := es[..|es| - 1], es[|es| - 1];
      assert es == init + [e];
      AddAllKeys(r, init);
      assert MessageIds(es) == MessageIds(init) + (if IsTermId(e.id) then {} else {e.id}) by {
        forall id | id in MessageIds(es) ensures id in MessageIds(init) + (if IsTermId(e.id) then {} else {e.id}) {
          var i :| 0 <= i < |es| && !IsTermId(es[i].id) && es[i].id == id;
          if i < |init| {
            assert init[i] == es[i];
          }
        }
        forall id | id in MessageIds(init) ensures id in MessageIds(es) {
          var i :| 0 <= i < |init| && !IsTermId(init[i].id) && init[i].id == id;
          assert es[i] == init[i];
        }
      }
      assert TermIds(es) == TermIds(init) + (if IsTermId(e.id) then {e.id} else {}) by {
        forall id | id in TermIds(es) ensures id in TermIds(init) + (if IsTermId(e.id) then {e.id} else {}) {
          var i :| 0 <= i < |es| && IsTermId(es[i].id) && es[i].id == id;
          if i < |init| {
            assert init[i] == es[i];
          }
        }
        forall id | id in TermIds(init) ensures id in TermIds(es) {
          var i :| 0 <= i < |init| && IsTermId(init[i].id) && init[i].id == id;
          assert es[i] == init[i];
        }
      }
    }
  }

  /**
   * Each entry either adds exactly one key or yields exactly one error, so the
   * number of stored definitions plus the number of errors grows by |es|.
   */
  lemma {:induction false} AddAllCount(r: Registry, es: seq<Entry>)
    ensures var (r', errs) := AddAll(r, es);
      |r'.messages| + |r'.terms| + |errs| == |r.messages| + |r.terms| + |es|
    decreases |es|
  {
    if es != [] {
      AddAllCount(r, es[..|es| - 1]);
    }
  }

  /** Entry i clashes: its identifier was stored before the call or by an earlier entry. */
  predicate Clashes(r: Registry, es: seq<Entry>, i: int)
    requires 0 <= i < |es|
  {
    Defined(r, es[i].id) || exists j :: 0 <= j < i && es[j].id == es[i].id
  }

  /** One OverrideError for each clashing entry, naming it, in entry order. */
  function ClashErrors(r: Registry, es: seq<Entry>): seq<ContextError>
    decreases |es|
  {
    if es == [] then []
    else
      var last := |es| - 1;
      ClashErrors(r, es[..last]) + (if Clashes(r, es, last) then [OverrideError(es[last].id)] else [])
  }

  /**
   * The errors are exactly the clashes: every clashing entry is reported once,
   * in order, and no other entry is reported.
   */
  lemma {:induction false} AddAllErrorsAreClashErrors(r: Registry, es: seq<Entry>)
    ensures AddAll(r, es).1 == ClashErrors(r, es)
    decreases |es|
  {
    if es != [] {
      var init, e := es[..|es| - 1], es[|es| - 1];
      var last := |es| - 1;
      AddAllErrorsAreClashErrors(r, init);
      AddAllKeys(r, init);
      var r1 := AddAll(r, init).0;
      assert ClashErrors(r, es[..last]) == ClashErrors(r, init);
      if Defined(r1, e.id) {
        if !Defined(r, e.id) {
          var j :| 0 <= j < |init| && init[j].id == e.id;
          assert es[j] == init[j];
        }
        assert Clashes(r, es, last);
      } else {
        assert !Clashes(r, es, last);
      }
    }
  }

  /** Entries with fresh, pairwise distinct identifiers are all added without an error. */
  lemma {:induction false} AddAllFreshNoErrors(r: Registry, es: seq<Entry>)
    requires forall i :: 0 <= i < |es| ==> !Defined(r, es[i].id)
    requires forall i, j :: 0 <= i < j < |es| ==> es[i].id != es[j].id
    ensures AddAll(r, es).1 == []
    decreases |es|
  {
    if es != [] {
      var init, e := es[..|es| - 1], es[|es| - 1];
      AddAllFreshNoErrors(r, init);
      AddAllKeys(r, init);
    }
  }

  /** The first definition of a fresh identifier is the one stored. */
  lemma {:induction false} AddAllStoresFirst(r: Registry, es: seq<Entry>, i: int)
    requires 0 <= i < |es| && FirstOfId(es, i) && !Defined(r, es[i].id)
    ensures Stored(AddAll(r, es).0, es[i].id) == Some(es[i].message)
    decreases |es|
  {
    var init, e := es[..|es| - 1], es[|es| - 1];
    if i < |es| - 1 {
      assert init[i] == es[i];
      assert FirstOfId(init, i) by {
        forall j | 0 <= j < i ensures init[j].id != init[i].id {
          assert init[j] == es[j];
        }
      }
      AddAllStoresFirst(r, init, i);
    } else {
      AddAllKeys(r, init);
    }
  }

  /** Adding entries whose identifiers are all taken changes nothing and reports one error per entry. */
  lemma {:induction false} AddAllDefinedIsNoOp(r: Registry, es: seq<Entry>)
    requires forall i :: 0 <= i < |es| ==> Defined(r, es[i].id)
    ensures AddAll(r, es).0 == r
    ensures |AddAll(r, es).1| == |es|
    decreases |es|
  {
    if es != [] {
      AddAllDefinedIsNoOp(r, es[..|es| - 1]);
    }
  }

  /** Adding the same resource twice: the second time stores nothing new and reports every entry. */
  lemma AddAllTwice(r: Registry, es: seq<Entry>)
    ensures AddAll(AddAll(r, es).0, es).0 == AddAll(r, es).0
    ensures |AddAll(AddAll(r, es).0, es).1| == |es|
  {
    var r' := AddAll(r, es).0;
    AddAllKeys(r, es);
    forall i | 0 <= i < |es| ensures Defined(r', es[i].id) {
      if IsTermId(es[i].id) {
        assert es[i].id in TermIds(es);
      } else {
        assert es[i].id in MessageIds(es);
      }
    }
    AddAllDefinedIsNoOp(r', es);
  }

  /** What AddMessages promises about its new state, gathered from the lemmas above. */
  lemma AddAllSummary(r: Registry, es: seq<Entry>)
    requires Separated(r)
    ensures var (r', errs) := AddAll(r, es);
      Separated(r') &&
      r'.messages.Keys == r.messages.Keys + MessageIds(es) &&
      r'.terms.Keys == r.terms.Keys + TermIds(es) &&
      (forall id :: id in r.messages ==> id in r'.messages && r'.messages[id] == r.messages[id]) &&
      (forall id :: id in r.terms ==> id in r'.terms && r'.terms[id] == r.terms[id]) &&
      |r'.messages| + |r'.terms| + |errs| == |r.messages| + |r.terms| + |es| &&
      (forall i :: 0 <= i < |es| && FirstOfId(es, i) && !Defined(r, es[i].id) ==> Stored(r', es[i].id) == Some(es[i].message)) &&
      errs == ClashErrors(r, es)
  {
    AddAllErrorsAreClashErrors(r, es);
    AddAllSeparated(r, es);
    AddAllKeys(r, es);
    AddAllKeepsExisting(r, es);
    AddAllCount(r, es);
    forall i | 0 <= i < |es| && FirstOfId(es, i) && !Defined(r, es[i].id)
      ensures Stored(AddAll(r, es).0, es[i].id) == Some(es[i].message)
    {
      AddAllStoresFirst(r, es, i);
    }
  }

  /** The context object: the `_messages` and `_terms` maps, updated in place. */
  class MessageContext {
    var messages: map<string, Message>
    var terms: map<string, Message>

    ghost predicate Valid()
      reads this
    {
      Separated(State())
    }

    function State(): Registry
      reads this
    {
      Registry(messages, terms)
    }

    constructor ()
      ensures Valid() && messages == map[] && terms == map[]
    {
      messages := map[];
      terms := map[];
    }

    /**
     * Stores the resource's definitions, terms in `terms` and the rest in
     * `messages`, never overwriting; returns the parser's errors followed by
     * one error per clashing definition.
     */
    method AddMessages(resource: Resource) returns (errors: seq<ContextError>)
      requires Valid()
      modifies this
      ensures Valid()
      ensures |errors| >= |resource.errors|
      ensures (State(), errors[|resource.errors|..]) == AddAll(old(State()), resource.entries)
      ensures forall k :: 0 <= k < |resource.errors| ==> errors[k] == ParseError(resource.errors[k])
      ensures messages.Keys == old(messages.Keys) + MessageIds(resource.entries)
      ensures terms.Keys == old(terms.Keys) + TermIds(resource.entries)
      ensures forall id :: id in old(messages) ==> id in messages && messages[id] == old(messages)[id]
      ensures forall id :: id in old(terms) ==> id in terms && terms[id] == old(terms)[id]
      ensures |messages| + |terms| + |errors| == old(|messages| + |terms|) + |resource.errors| + |resource.entries|
      ensures forall i :: 0 <= i < |resource.entries| && FirstOfId(resource.entries, i) && !Defined(old(State()), resource.entries[i].id) ==>
        Stored(State(), resource.entries[i].id) == Some(resource.entries[i].message)
    {
      var entries := resource.entries;
      var clashes: seq<ContextError> := [];
      var i := 0;
      while i < |entries|
        invariant 0 <= i <= |entries|
        invariant (State(), clashes) == AddAll(old(State()), entries[..i])
      {
        var e := entries[i];
        ghost var before, clashesBefore := State(), clashes;
        AddAllStep(old(State()), entries[..i], e);
        assert entries[..i + 1] == entries[..i] + [e];
        if IsTermId(e.id) {
          if e.id in terms {
            clashes := clashes + [OverrideError(e.id)];
          } else {
            terms := terms[e.id := e.message];
          }
        } else {
          if e.id in messages {
            clashes := clashes + [OverrideError(e.id)];
          } else {
            messages := messages[e.id := e.message];
          }
        }
        assert State() == AddEntry(before, e).0;
        assert clashes == clashesBefore + AddEntry(before, e).1;
        i := i + 1;
      }
      errors := seq(|resource.errors|, k requires 0 <= k < |resource.errors| => ParseError(resource.errors[k])) + clashes;
      assert entries[..i] == entries;
      AddAllSummary(old(State()), entries);
    }

    /** A lookup in the public map: a term is never visible here. */
    function GetMessage(id: string): (m: Option<Message>)
      reads this
      requires Valid()
      ensures IsTermId(id) ==> m.None?
      ensures m.Some? ==> id in messages && m.value == messages[id]
      ensures id in messages ==> m.Some?
    {
      if id in messages then Some(messages[id]) else None
    }

    function HasMessage(id: string): (b: bool)
      reads this
      requires Valid()
      ensures IsTermId(id) ==> !b
      ensures b <==> GetMessage(id).Some?
    {
      id in messages
    }

    /** Formats a literal message: its text, with `errors` passed through unchanged. */
    function Format(message: Message, args: Option<map<string, string>>, errors: seq<FormatError>): (r: (string, seq<FormatError>))
      ensures r.0 == message.value
      ensures r.1 == errors
    {
      (message.value, errors)
    }
  }

  /** Messages and terms go to their own maps, and a later resource adds to what is stored. */
  method AddScenario() {
    var first := [Entry("foo", Message("Foo")), Entry("-bar", Message("Private Bar"))];
    assert MessageIds(first) == {"foo"} && TermIds(first) == {"-bar"} by {
      assert first[0].id == "foo" && first[1].id == "-bar";
    }
    var ctx := new MessageContext();
    var errors := ctx.AddMessages(Resource(first, []));
    assert "foo" in ctx.messages && "foo" !in ctx.terms;
    assert "-bar" !in ctx.messages && "-bar" in ctx.terms;

    var baz := [Entry("baz", Message("Baz"))];
    assert MessageIds(baz) == {"baz"} && TermIds(baz) == {} by { assert baz[0].id == "baz"; }
    errors := ctx.AddMessages(Resource(baz, []));
    assert "foo" in ctx.messages && "foo" !in ctx.terms;
    assert "-bar" !in ctx.messages && "-bar" in ctx.terms;
    assert "baz" in ctx.messages && "baz" !in ctx.terms;
  }

  /** A term may share a message's name. */
  method SameNameScenario() {
    var first := [Entry("foo", Message("Foo")), Entry("-bar", Message("Private Bar"))];
    assert MessageIds(first) == {"foo"} && TermIds(first) == {"-bar"} by {
      assert first[0].id == "foo" && first[1].id == "-bar";
    }
    var ctx := new MessageContext();
    var errors := ctx.AddMessages(Resource(first, []));
    var privateFoo := [Entry("-foo", Message("Private Foo"))];
    assert MessageIds(privateFoo) == {} && TermIds(privateFoo) == {"-foo"} by { assert privateFoo[0].id == "-foo"; }
    errors := ctx.AddMessages(Resource(privateFoo, []));
    assert "foo" in ctx.messages && "foo" !in ctx.terms;
    assert "-foo" !in ctx.messages && "-foo" in ctx.terms;
  }

  /** A message is not overwritten: one error, one message, and the old text when formatted. */
  method OverwriteScenario() {
    var first := [Entry("foo", Message("Foo")), Entry("-bar", Message("Private Bar"))];
    assert MessageIds(first) == {"foo"} && TermIds(first) == {"-bar"} by {
      assert first[0].id == "foo" && first[1].id == "-bar";
    }
    var ctx := new MessageContext();
    var errors := ctx.AddMessages(Resource(first, []));
    assert FirstOfId(first, 0);
    assert Stored(ctx.State(), "foo") == Some(Message("Foo"));
    var newFoo := [Entry("foo", Message("New Foo"))];
    assert MessageIds(newFoo) == {"foo"} && TermIds(newFoo) == {} by { assert newFoo[0].id == "foo"; }
    errors := ctx.AddMessages(Resource(newFoo, []));
    assert ctx.messages.Keys == {"foo"};
    assert |ctx.messages| == 1;
    assert |errors| == 1;
    var msg := ctx.GetMessage("foo");
    assert msg == Some(Message("Foo"));
    var formatted := ctx.Format(msg.value, None, []);
    assert formatted.0 == "Foo" && formatted.1 == [];
  }

  /** HasMessage is true for a public message and false for a term or an unknown '-' id. */
  method HasMessageScenario() {
    var first := [Entry("foo", Message("Foo")), Entry("-bar", Message("Bar"))];
    assert MessageIds(first) == {"foo"} && TermIds(first) == {"-bar"} by {
      assert first[0].id == "foo" && first[1].id == "-bar";
    }
    var ctx := new MessageContext();
    var errors := ctx.AddMessages(Resource(first, []));
    assert ctx.HasMessage("foo");
    assert !ctx.HasMessage("-bar") && !ctx.HasMessage("-baz");
  }

  /** GetMessage returns a public message and nothing for a term or an unknown '-' id. */
  method GetMessageScenario() {
    var first := [Entry("foo", Message("Foo")), Entry("-bar", Message("Bar"))];
    assert MessageIds(first) == {"foo"} && TermIds(first) == {"-bar"} by {
      assert first[0].id == "foo" && first[1].id == "-bar";
    }
    var ctx := new MessageContext();
    assert !Defined(ctx.State(), first[0].id) && FirstOfId(first, 0);
    var errors := ctx.AddMessages(Resource(first, []));
    assert ctx.messages.Keys == {"foo"};
    assert Stored(ctx.State(), "foo") == Some(Message("Foo"));
    assert ctx.GetMessage("foo") == Some(Message("Foo"));
    assert ctx.GetMessage("-bar") == None && ctx.GetMessage("-baz") == None;
  }
}
