# Observer chat and text-format adapter, in Dafny

A model of the two pieces of the pattern demo that carry a behavioural
contract:

- the **chat hub** (`Chat`): an ordered list of subscribers compared by object
  identity. `Subscribe` appends a user only when absent, `Unsubscribe` removes
  a user only when present, and `SendMessage` writes an announcement line and
  then calls `Update` on every subscriber in list order. The list field becomes
  a `seq<User>` that the methods reassign. Console output becomes a `Console`
  object holding the sequence of abstract `Event`s written so far: an
  announcement, or a receipt tagged with the receiving user.
- the **text-format adapter** (`TextFormatAdapter.GetContent`): a dispatch on
  the wrapped object's kind. It returns the TXT, JSON or XML reader's fixed text
  verbatim, or the "not supported" error for any other object.

Files:

- `adapter.dfy`: the adapter (module `Adapter`).
- `users.dfy`: `User`, `Event` and `Console` (module `Users`).
- `subscriber_list.dfy`: the subscriber list as a value. It holds the
  functions that specify subscribe, unsubscribe and broadcast, and the lemmas
  about them (module `SubscriberList`).
- `chat.dfy`: the `Chat` class (module `ChatHub`). `Subscribe`, `Unsubscribe`,
  `SendMessage` and `NotifySubscribers` are proved against those functions.
  `IndexOf` and `Contains` carry their own search contracts, and `IndexOf` is
  also tied to the function `FirstIndex`.
- `demo.dfy`: the program's fixed run, as two methods whose postconditions
  state the exact output (module `Demo`).

## Model

| member | source | states |
|---|---|---|
| `Adapter.TextFormatAdapter.GetContent` | Program.cs:70-79 | succeeds exactly when the wrapped object is one of the three readers; otherwise fails with the "not supported" error and its diagnostic |
| `Adapter.GetContentVerbatim` | Program.cs:39-58 | each of the three adapters returns its reader's fixed text unchanged; an unknown object fails |
| `Adapter.ContentIdentifiesFormat` | Program.cs:72-77 | the three readers' texts are pairwise distinct, so a successful result determines the wrapped kind |
| `Users.User.Update` | Program.cs:96-99 | receiving a message appends exactly one receipt line, tagged with this user, to the output |
| `Users.User.constructor` | Program.cs:91-94 | a new user carries the given name; its identity is the new object |
| `ChatHub.Chat.constructor` | Program.cs:104 | a new chat has no subscribers, and its list is trivially duplicate-free |
| `ChatHub.Chat.IndexOf` | Program.cs:108 | identity search: returns the first position of the user (the one `FirstIndex` gives), or -1 exactly when the user is absent |
| `ChatHub.Chat.Contains` | Program.cs:108 | true exactly when the user is in the list, compared by identity |
| `ChatHub.Chat.Subscribe` | Program.cs:106-110 | the new list is the old one with the user appended if it was absent; the no-duplicates invariant is kept |
| `ChatHub.Chat.Unsubscribe` | Program.cs:112-116 | the new list is the old one with the user's occurrence removed if present; the no-duplicates invariant is kept |
| `ChatHub.Chat.SendMessage` | Program.cs:118-122 | output grows by the announcement, then one receipt per current subscriber in list order; the subscriber list is unchanged; on a duplicate-free chat each subscriber receives the message exactly once and no one else receives it |
| `ChatHub.Chat.NotifySubscribers` | Program.cs:124-130 | the loop appends exactly the receipts of all subscribers, first to last |
| `SubscriberList.SubscribeIdempotent` | Program.cs:108-109 | subscribing a present user leaves the list exactly unchanged, so a repeated subscribe is a no-op |
| `SubscriberList.SubscribeAppends` | Program.cs:109 | subscribing an absent user grows the list by one, with the user last and every earlier subscriber in its place |
| `SubscriberList.SubscribeKeepsNoDuplicates` | Program.cs:106-110 | subscribing keeps the list duplicate-free, and the user is a member afterwards |
| `SubscriberList.UnsubscribeAbsent` | Program.cs:114 | unsubscribing an absent user leaves the list unchanged, with no error |
| `SubscriberList.UnsubscribeAt` | Program.cs:114-115 | removing a user whose first occurrence is at position k yields exactly the list without position k, others in their order |
| `SubscriberList.UnsubscribePresent` | Program.cs:114-115 | unsubscribing a present user shortens the list by one, cutting out one position holding that user and keeping the rest in order |
| `SubscriberList.FirstIndex` | Program.cs:115 | a present user has a first position: it holds the user and no earlier position does |
| `SubscriberList.UnsubscribeKeepsNoDuplicates` | Program.cs:112-116 | on a duplicate-free list, unsubscribing removes the user entirely, keeps every other member, and stays duplicate-free |
| `SubscriberList.ReplayKeepsNoDuplicates` | Program.cs:104-116 | after any sequence of subscribes and unsubscribes, starting from a duplicate-free list, no user is listed twice |
| `SubscriberList.DeliveriesInOrder` | Program.cs:126-129 | a broadcast writes one receipt per subscriber, and the i-th receipt goes to the i-th subscriber |
| `SubscriberList.DeliveriesAppend` | Program.cs:126-129 | the receipts for a list split in two are those of the first part followed by those of the second |
| `SubscriberList.DeliveredExactlyOnce` | Program.cs:126-129 | on a duplicate-free list every subscriber receives a broadcast exactly once, and a non-subscriber never does |
| `SubscriberList.BroadcastReachesEachOnce` | Program.cs:118-130 | a broadcast to a duplicate-free list gives every subscriber exactly one receipt of the message and gives no one else any |
| `Demo.ReadAllFormats` | Program.cs:141-147 | the three adapters yield the TXT, JSON and XML texts in that order, and none fails |
| `Demo.ScenarioTranscript` | Program.cs:157-161 | the broadcast to [Olena, Ivan] followed by the broadcast to [Olena] writes announcement, Olena, Ivan, then announcement, Olena |
| `Demo.ChatScenario` | Program.cs:149-161 | the output is: announcement, Olena, Ivan for the first message; after Ivan leaves, announcement, Olena for the second; the final list is [Olena] |

## Left out

- The `Logger` singleton (Program.cs:4-30): its only substance is the lock around lazy creation, which is about concurrency, and `Log` only writes to the console.
- Console formatting and the output encoding: output is a sequence of abstract events, not text. A receipt carries the user object rather than the name that would be printed.
- A null observer: the source accepts one, since `Contains(null)` is false and `Add(null)` succeeds (Program.cs:108-109). A later broadcast then writes the announcement and the receipts of the subscribers before the null entry, and throws at Program.cs:128. Here `User` is a non-null type, so that path is not modelled.
- The `IObserver` interface: `User` is its only implementation, so the chat holds `User` objects directly. Another observer kind would need an interface, which this model does not have.
- `Program.Main` as an entry point: its fixed sequence of calls appears only as the two `Demo` methods.
- The `NotSupportedException` is modelled as an error result. Nothing here models the exception unwinding the caller.
- The three reader classes are kinds in the `Adaptee` datatype rather than separate objects. Their texts are kept literally, but nothing depends on them beyond their being distinct.
