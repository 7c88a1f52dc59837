# Chain-of-responsibility dispatcher

This project models `ChainProcessor` from the `Mmc\Processor\Component`
namespace and proves properties of the model. The dispatcher keeps a list of
ordering entries. Each entry is a processor with a registered name and an
integer priority.

- `add` appends an entry and re-sorts the list by ascending priority. It
  returns the dispatcher itself, so registrations can be chained.
- `supports` asks each entry's processor in list order and answers true at
  the first one that accepts the request.
- `process` asks in the same order and delegates to the first accepting
  processor. It stamps that entry's name into the response's `name` extra.
  When no processor accepts, it answers a fresh not-implemented response.

Files:

- `component.dfy` (module `Component`) holds the value types the dispatcher
  uses: `Request`, `Response` with its extras map, `StatusCode`, `Processor`
  and the ordering entry `Item`.
- `chain.dfy` (module `Chain`) holds the dispatcher. `ChainProcessor` is a
  class whose one field `items: seq<Item>` is reassigned by `Add`. Alongside
  it are the specification functions `FirstMatch` and `Dispatch`, the lemma
  about priorities, and the sort that stands for PHP's `usort`.
- `scenarios.dfy` (module `ChainExamples`) holds client methods that derive
  outcomes from the dispatcher's contracts alone. `ChainedRegistrations`
  follows the repository's two dispatcher tests
  (`tests/Mmc/Processor/Component/ChainProcessorTest.php`). Their setup
  registers `p1`/`p2`/`p3` at priorities 5/3/1. "foobar" then gets
  `NOT_IMPLEMENTED`, and "foo" goes to `p2`. `EmptyDispatcher` and
  `DefaultRegistration` are further scenarios of this model that no
  repository test covers. They cover an empty dispatcher, and a
  registration with the default name and priority.

Modelling decisions:

- A processor is a value with two total functions, `accepts` and `handle`.
  These are the `supports` and `process` methods of the processor interface.
  They are opaque to the dispatcher and free of side effects.
- A request is reduced to its name, the one thing the repository's tests
  build it from. The dispatcher never looks inside it.
- The not-implemented response is built as `Response(request, null,
  NOT_IMPLEMENTED)`. The model takes its extras to start empty.
- `SortByPriority` stands for the `usort` call. Its contract promises only
  that the result is sorted and is a permutation of its input. Its body is an
  insertion sort, which happens to keep equal priorities in insertion order.
  That stability is a choice of this model and not a promise of the source.
  With the boolean `>` comparator the tie order depends on the PHP version
  the library runs under. PHP 7's sort is not
  stable. From PHP 8.0 `usort` is stable, so ties keep insertion order there.

## Model

| member | source | states |
|---|---|---|
| Component.SetExtra | src/Mmc/Processor/Component/ChainProcessor.php:42 | Setting an extra stores the value under the key, keeps request, output and status, and leaves every other key and its value untouched |
| Chain.FirstMatch | src/Mmc/Processor/Component/ChainProcessor.php:27-31 | The scan finds a position exactly when some entry accepts the request; the position found accepts and no earlier entry does |
| Chain.NotImplementedResponse | src/Mmc/Processor/Component/ChainProcessor.php:48 | The sentinel refers to the original request, has a null output and the NOT_IMPLEMENTED status |
| Chain.Dispatch | src/Mmc/Processor/Component/ChainProcessor.php:38-48 | When no entry accepts, the answer is the sentinel; otherwise it is the first accepting entry's response with `name` set to that entry's name |
| Chain.FirstMatchHasLowestPriority | src/Mmc/Processor/Component/ChainProcessor.php:18-20 | On a priority-sorted list the first accepting entry has a priority no greater than that of any other accepting entry |
| Chain.InsertByPriority | src/Mmc/Processor/Component/ChainProcessor.php:16-20 | Inserting one entry into a sorted list gives a sorted list whose multiset is the old one plus that entry |
| Chain.SortByPriority | src/Mmc/Processor/Component/ChainProcessor.php:18-20 | The result is sorted by non-decreasing priority and is a permutation of the input |
| Chain.ChainProcessor.constructor | src/Mmc/Processor/Component/ChainProcessor.php:9-12 | A new dispatcher has an empty, hence sorted, entry list |
| Chain.ChainProcessor.Add | src/Mmc/Processor/Component/ChainProcessor.php:14-23 | The list grows by exactly one entry, is sorted by priority, and is a permutation of the old list plus the new entry (default name `''`, default priority 10); the dispatcher itself is returned |
| Chain.ChainProcessor.Supports | src/Mmc/Processor/Component/ChainProcessor.php:25-34 | True exactly when some registered processor accepts the request, that is, exactly when `process` would delegate; the entry list is not modified |
| Chain.ChainProcessor.Process | src/Mmc/Processor/Component/ChainProcessor.php:36-49 | The answer is the first accepting entry's response with its `name` extra set to that entry's name, or the NOT_IMPLEMENTED sentinel when none accepts; on a sorted list that entry has the lowest priority among the accepting entries; the entry list is not modified |

## Left out

- Nesting a dispatcher inside another: the class implements the processor interface itself, but `Processor` here is a value and not an interface the class can implement.
- Object identity and aliasing: `setExtra` mutates the response object the delegated processor returned, which that processor may still hold; the model updates a response value instead.
- Exceptions thrown by a processor's `supports` or `process`: they propagate unchanged in the source and are not modelled.
- Stateful processors: processors are pure functions here, so two identical requests always get identical answers.
- The concrete processor, request, response and status-code classes of the repository are not part of this model; only the parts the dispatcher touches are modelled.
- The deprecation notice PHP 8 emits because the sort comparator returns a boolean rather than an integer: diagnostics are not modelled.
- Tie order among equal priorities: the source's comparator does not determine it, so no contract states it.
