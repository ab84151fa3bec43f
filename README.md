# Fluent.Net: annotation rendering and the message context

A Dafny model of two pieces of Fluent.Net, a .NET implementation of the
Fluent localization format.

**Annotation rendering** (`annotations.dfy`, with `text.dfy`). The parser's
behaviour fixtures compare parser diagnostics in a fixed text form. Each
annotation has a code, a span `[start, end)` and optional arguments.
`GetCodeName` maps the code to a severity-prefixed name by its first letter.
`E` gives `ERROR <code>`. `W` and `H` give `WARNING $<code>` and
`HINT $<code>`: the `$` is a literal character left in the interpolated
string. An empty code or another first letter is an error, modelled as
`Failure`.

`SerializeAnnotation` builds a list of parts step by step and joins it with
`", "`. It adds the name first. An empty span adds one part, `pos <start>`.
Any other span adds two parts, `start <start>` and then `start <end>`; both
are labelled `start`, as the source writes them. Last comes
`args "<a>" "<b>" …`, but only when the arguments are neither `null` nor
empty. The method is proved against the specification function
`Serialized`, and the lemmas state the layout. Their partners are read-back
functions. `CodeOfName` recovers the code from its name. `ParseInt`
recovers an offset from its decimal text. `DecodeSpan` recovers the span
from its rendering, so annotations that differ only in their span render
differently, even with the two identical labels.

**Message context** (`message_context.dfy`). A `MessageContext` object holds
two maps: `messages` for public identifiers and `terms` for identifiers that
start with `-`. Terms are stored with their `-`. `AddMessages` takes an
already-parsed resource: its entries in order, and the parser's own errors.
It routes each entry by its prefix. An identifier that is already taken is
never overwritten. Instead the call reports one `OverrideError`, and the
first definition stays. The loop is proved against the pure function
`AddAll`. The lemmas about `AddAll` state:

- the two namespaces stay separate;
- what was stored stays stored, with the same definition;
- the key sets grow by exactly the added identifiers;
- the stored count plus the error count grows by the number of entries;
- the errors are exactly one `OverrideError` per clashing entry, in entry order;
- the first definition of a fresh identifier is the one stored;
- adding the same resource twice stores nothing new.

`HasMessage` and `GetMessage` look only in the public map, so a term is
never visible through them. `Format` covers literal messages: it returns
the stored text and reports no error. Five client methods (`AddScenario`,
`SameNameScenario`, `OverwriteScenario`, `HasMessageScenario`,
`GetMessageScenario`) replay the
context's test scenarios.

## Model

| member | source | states |
|---|---|---|
| `Annotations.GetCodeName` | Fluent.Net.Test/ParserTestBase.cs:56-69 | an empty code fails (`code[0]`); a first letter other than E, W or H fails with the code; otherwise the name is the severity's label (`ERROR `, `WARNING $`, `HINT $`) followed by the whole code |
| `Annotations.CodeNameRoundTrip` | Fluent.Net.Test/ParserTestBase.cs:56-69 | the code can be read back out of its name: `CodeOfName` inverts `GetCodeName` |
| `Annotations.CodeNameInjective` | Fluent.Net.Test/ParserTestBase.cs:56-69 | two codes with the same name are the same code |
| `Annotations.SerializeAnnotation` | Fluent.Net.Test/ParserTestBase.cs:71-96 | fails exactly when `GetCodeName` fails, with its error; otherwise the parts it collects one by one, joined with ", ", equal the specification `Serialized` |
| `Annotations.PartsShape` | Fluent.Net.Test/ParserTestBase.cs:73-93 | two to four parts; the name first; `pos <start>` alone for an empty span, else `start <start>` then `start <end>`; the `args` part last and only when the arguments are non-null and non-empty |
| `Annotations.Quoted` | Fluent.Net.Test/ParserTestBase.cs:91 | one quoted string per argument, in order, each the argument inside double quotes |
| `Annotations.SerializedLayout` | Fluent.Net.Test/ParserTestBase.cs:73-95 | the rendering is the name, ", ", the span text, then ", args …" when there are arguments |
| `Annotations.WideSpanText` | Fluent.Net.Test/ParserTestBase.cs:82-86 | a non-empty span renders as `start <start>, start <end>`: both fields labelled `start`, the start offset first |
| `Annotations.SpanRoundTrip` | Fluent.Net.Test/ParserTestBase.cs:76-86 | the span text decodes back to the exact (start, end), in both the point and the two-field form |
| `Annotations.SerializedDeterminesSpan` | Fluent.Net.Test/ParserTestBase.cs:76-95 | annotations with the same code and arguments render identically if and only if their spans are equal |
| `Text.IntToString` | Fluent.Net.Test/ParserTestBase.cs:80-85 | an offset renders as a leading '-' exactly when it is negative, then a non-empty run of digits with no leading zero unless the offset is 0 |
| `Text.NatToString` | Fluent.Net.Test/ParserTestBase.cs:80-85 | the decimal digits of a non-negative offset, with no leading zero |
| `Text.ParseIntRoundTrip` | Fluent.Net.Test/ParserTestBase.cs:80-85 | the decimal rendering of an offset is lossless: `ParseInt` gives back the same number |
| `Text.JoinAppend` | Fluent.Net.Test/ParserTestBase.cs:95 | joining two non-empty part lists is joining each and putting one separator between them |
| `MessageContexts.MessageContext.AddMessages` | Fluent.Net.Test/MessageContextTest.cs:9-69 | returns the parse errors followed by the override errors; the new maps and the override errors are those of `AddAll` on the old maps; the key sets grow by exactly the added ids; old entries are kept unchanged; the first definition of a fresh id is stored; the separation invariant is kept |
| `MessageContexts.AddAllSeparated` | Fluent.Net.Test/MessageContextTest.cs:17-25 | after adding, message keys never start with '-' and term keys always do |
| `MessageContexts.AddAllKeys` | Fluent.Net.Test/MessageContextTest.cs:27-57 | the message keys become the old ones plus the entries' non-'-' ids; the term keys become the old ones plus the entries' '-' ids, dash included |
| `MessageContexts.AddAllKeepsExisting` | Fluent.Net.Test/MessageContextTest.cs:27-42 | every message and term stored before the call is still stored, with the same definition |
| `MessageContexts.AddAllCount` | Fluent.Net.Test/MessageContextTest.cs:59-69 | stored count plus error count grows by exactly the number of entries |
| `MessageContexts.AddAllErrorsAreClashErrors` | Fluent.Net.Test/MessageContextTest.cs:59-69 | the errors are exactly `ClashErrors`: one `OverrideError` for each entry whose id was already stored or defined by an earlier entry, in entry order, and none for any other entry |
| `MessageContexts.AddAllFreshNoErrors` | Fluent.Net.Test/MessageContextTest.cs:9-15 | entries with fresh, pairwise distinct ids are added without an error |
| `MessageContexts.AddAllStoresFirst` | Fluent.Net.Test/MessageContextTest.cs:59-76 | for an id not stored before, the first entry defining it is the definition stored |
| `MessageContexts.AddAllDefinedIsNoOp` | Fluent.Net.Test/MessageContextTest.cs:59-69 | entries whose ids are all taken change nothing and yield one error each |
| `MessageContexts.AddAllTwice` | Fluent.Net.Test/MessageContextTest.cs:59-69 | adding the same entries a second time stores nothing new and reports every entry |
| `MessageContexts.MessageContext.GetMessage` | Fluent.Net.Test/MessageContextTest.cs:103-121 | a '-' id is never found; a found message is the one stored under that id in the public map; every stored public id is found |
| `MessageContexts.MessageContext.HasMessage` | Fluent.Net.Test/MessageContextTest.cs:87-101 | false for every '-' id; true exactly when `GetMessage` finds the id |
| `MessageContexts.MessageContext.Format` | Fluent.Net.Test/MessageContextTest.cs:71-75 | a literal message formats to its stored text and the error list is passed through unchanged |

## Left out

- The test fixture helpers `ParseBehaviourFixture` and `ProcessFtlWithDirectives` are left out. They depend on .NET regular-expression semantics.
- `ResolvePath` and `ForEachFile` are left out. They are file-system I/O.
- `StructureTestData`, `BehaviourTestData` and their `ToString` are left out. They are test-data holders.
- The FTL parser is not part of this model. `AddMessages` receives its output: the entries in source order and its syntax errors as text.
- The resolver is not part of this model beyond literal messages. That covers references, select expressions, functions, cycle detection and format errors. `Format` handles only a message whose value is a string expression.
- The implementation file of `MessageContext` is not part of this model. Its behaviour is taken from MessageContextTest.cs. In particular, the model processes a resource's entries in order, so a second definition of an id within one resource also loses and is reported.
- `MessageContext.HasMessage` and `GetMessage` are a plain lookup in the public map. A '-' id is never visible because the separation invariant keeps such keys out of that map; no explicit prefix check is modelled.
- Attributes of messages and terms are left out. A message is its literal value only.
- A `null` code, which would throw `NullReferenceException`, has no counterpart: Dafny strings are never null.
- `Text.IntToString`: renders with the invariant '-' sign. The C# interpolation uses the current culture's `NegativeSign`, which could differ for negative offsets.
- `Annotations.Quoted`: a `null` element inside `Args` renders as `""` in C#. The model's `seq<string>` cannot hold `null`, so that case has no counterpart.
