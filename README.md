# Chat widget composables, modelled in Dafny

This project models the two Vue composables of a small chat widget.

- `useChat` holds the chat transcript. Sending a message pushes a user message at once. It
  also schedules a delayed assistant reply `"You said: " + text`. Each message id is the
  decimal text of the transcript's length at the moment of the push.
- `useChatScroll` tracks whether the chat view is at (near) its bottom and whether the
  "scroll to bottom" button shows. It scrolls to the bottom, either at once or with a 300 ms
  cubic ease-in-out animation. It also pins the view to the bottom while it is already there.

Modules:

- `Decimal` (`decimal.dfy`) renders an array length (always below 2^32) as JavaScript's
  `toString()` does, as plain decimal digits. It
  also defines the value of a digit string and proves that reading back the rendering gives
  the number.
- `UseChat` (`use_chat.dfy`) covers `app/composables/useChat.ts`. A `Snapshot` value holds
  the transcript and `pending`, the queue of texts whose reply timer has not fired yet.
  `SendStep` and `FireStep` are the two state changes. `Run` applies any interleaving of
  `Send` and `Fire` events, and the lemmas about runs hold for every interleaving. The class
  `Chat` holds the same two fields and updates them in place. Its methods `SendMessage` and
  `FireReply` are proved to perform exactly `SendStep` and `FireStep`, and they keep the
  invariant that every message pushed has its own index as id. All timers use the same
  200 ms delay, so they fire in the order they were scheduled. That is why `pending` is
  first in, first out.
- `UseChatScroll` (`use_chat_scroll.dfy`) covers `app/composables/useChatScroll.ts`. The
  class `ChatScroll` holds `isAtBottom`, `showScrollButton` and a `ScrollContainer?` that is
  null until the element is attached. The methods assign these fields as the source does.
  `ScrollToBottom` returns the `Animation` it starts: start offset, distance and start time.
  Each animation frame is one call of `Step` with the frame's time stamp. `Step` returns
  whether it asks for another frame. `scrollTop` is a real number because the animation
  writes fractional offsets. `scrollHeight` and `clientHeight` are integers.

Overlapping sends do not make ids collide. Messages are only ever appended, and each id is
the length at the moment of the push. So the id of every message pushed equals its own index
under any interleaving (`RunKeepsIds`), and no two pushed ids are equal (`IdsUnique`).
Overlap changes only one thing: a reply's id is then not its user message's id plus one
(`OverlapShiftsReplyId`).

## Model

| member | source | states |
|---|---|---|
| `Decimal.NatToString` | app/composables/useChat.ts:14 | the id text of a length is a non-empty string of decimal digits with no leading zero |
| `Decimal.DecimalRoundTrip` | app/composables/useChat.ts:14 | reading the id text back as a decimal number gives the length it was made from |
| `Decimal.NatToStringInjective` | app/composables/useChat.ts:14 | different lengths give different id texts |
| `UseChat.CreateMessageFields` | app/composables/useChat.ts:12-21 | the record `CreateMessage` builds has the given role and content, and its id is the decimal text of the length passed in; `CreateMessage` is a function, so it changes nothing |
| `UseChat.ReplyTextParts` | app/composables/useChat.ts:32 | the reply is the prefix `"You said: "` followed by exactly the original text |
| `UseChat.ReplyTextInjective` | app/composables/useChat.ts:32 | different texts get different replies |
| `UseChat.SendAppendsUserMessage` | app/composables/useChat.ts:25-30 | a send appends exactly one message, a user message with the sent text whose id is the decimal text of the length before the push; the earlier transcript is kept and the text joins the end of the reply queue |
| `UseChat.FireAppendsEcho` | app/composables/useChat.ts:30-33 | a timer fire appends exactly one assistant message `"You said: " + text` for the oldest queued text; its id is the length when it fires, not when it was sent; the text leaves the queue and the earlier transcript is kept |
| `UseChat.SendKeepsIds` | app/composables/useChat.ts:14-27 | after a send, every message from the starting index on still has its own index as id |
| `UseChat.FireKeepsIds` | app/composables/useChat.ts:14-32 | after a timer fire, every message from the starting index on still has its own index as id |
| `UseChat.RunOnlyAppends` | app/composables/useChat.ts:25-33 | over any interleaving, each event appends exactly one message and the earlier transcript is unchanged |
| `UseChat.RunKeepsIds` | app/composables/useChat.ts:12-33 | over any interleaving of sends and fires, every message pushed has its own index as id |
| `UseChat.IdsUnique` | app/composables/useChat.ts:14 | among the messages from a given index on whose ids equal their indices, in particular all messages a `Chat` pushes, no two share an id |
| `UseChat.RunUserContents` | app/composables/useChat.ts:25-27 | the user messages appended by a run are the sent texts, in the order they were sent |
| `UseChat.RunQueue` | app/composables/useChat.ts:30-33 | after a run, the queue holds exactly the queued and sent texts that have not been replied to yet, oldest first |
| `UseChat.RunEchoesInOrder` | app/composables/useChat.ts:30-33 | the replies pushed so far followed by the replies still due equal the replies to all texts queued or sent, in order: each text gets exactly one reply and replies keep the sending order |
| `UseChat.RunEchoesOldestFirst` | app/composables/useChat.ts:30-33 | the replies a run pushes answer the oldest queued or sent texts, one per fire, in order |
| `UseChat.AllRepliesFired` | app/composables/useChat.ts:25-33 | from an empty queue, once every scheduled reply has fired, the transcript has grown by exactly two messages per send |
| `UseChat.RunAlternating` | app/composables/useChat.ts:25-33 | when each reply fires before the next send, the new messages alternate user and assistant; each reply answers the send just before it and its id is that message's index plus one |
| `UseChat.OverlapShiftsReplyId` | app/composables/useChat.ts:25-33 | with two overlapping sends, the first reply is pushed after the second user message, so its id is the first user id plus two; every id still equals its index |
| `UseChat.Chat.constructor` | app/composables/useChat.ts:6-8 | the transcript starts as the given initial messages with no reply scheduled |
| `UseChat.Chat.SendMessage` | app/composables/useChat.ts:25-34 | the fields become exactly `SendStep` of their old values, and the id-equals-index invariant is kept |
| `UseChat.Chat.FireReply` | app/composables/useChat.ts:30-33 | the fields become exactly `FireStep` of their old values, and the id-equals-index invariant is kept |
| `UseChatScroll.Progress` | app/composables/useChatScroll.ts:55-57 | progress never exceeds 1; it equals 1 exactly when 300 ms or more have elapsed; below 1 it is elapsed / 300, and it is not negative when elapsed is not |
| `UseChatScroll.EaseInOutCubic` | app/composables/useChatScroll.ts:60-63 | the easing value is 0 at progress 0 and 1 at progress 1 |
| `UseChatScroll.EaseBounds` | app/composables/useChatScroll.ts:60-63 | for progress between 0 and 1 the easing value stays between 0 and 1 |
| `UseChatScroll.FinalFrameReachesTarget` | app/composables/useChatScroll.ts:47-68 | a frame 300 ms or more after the start has progress 1 and sets the offset to start plus distance, which is the target computed at the start |
| `UseChatScroll.FramePositionBetween` | app/composables/useChatScroll.ts:47-68 | a frame not earlier than the start sets an offset between the start offset and the target |
| `UseChatScroll.ChatScroll.constructor` | app/composables/useChatScroll.ts:9-11 | initially `isAtBottom` is true and `showScrollButton` is false |
| `UseChatScroll.ChatScroll.CheckScrollPosition` | app/composables/useChatScroll.ts:15-29 | with a container, `isAtBottom` is whether `scrollTop + clientHeight >= scrollHeight - 200`, and `showScrollButton` is its negation; the geometry is not touched; without a container nothing changes |
| `UseChatScroll.ChatScroll.ScrollToBottom` | app/composables/useChatScroll.ts:33-51 | without a container nothing changes and no frame is requested; with `immediate` the offset becomes exactly `scrollHeight - clientHeight` and no frame is requested; otherwise the offset is unchanged and the first frame of an animation from the current offset to that target is requested |
| `UseChatScroll.ChatScroll.Step` | app/composables/useChatScroll.ts:54-78 | with a container, the frame sets the offset to the eased position; it asks for another frame exactly when the container is present and progress is below 1, so never at or after 300 ms |
| `UseChatScroll.ChatScroll.PinToBottom` | app/composables/useChatScroll.ts:83-91 | with a container and `isAtBottom`, the offset becomes `scrollHeight` as written (not `scrollHeight - clientHeight`); when not at the bottom the offset is unchanged; the heights are not touched |

## Left out

- Vue reactivity (`ref`, `computed`, `useTemplateRef`) is left out. So is the fact that `messages` is an alias of `chat.messages`. Both are plain fields here.
- The mock transcript module and the shared type declarations are not part of this model. `Chat` starts from any given transcript. The id invariant covers the messages pushed after the start, because the initial messages keep whatever ids they had.
- `UseChat.IdsUnique`: a pushed id can equal the id of a starting message. For example, starting messages with ids "1" and "2" followed by one send give a pushed id "2". Uniqueness is proved only among the pushed messages.
- The 2^32 − 1 cap on a JavaScript array's length is not modelled, and neither is the exception a push beyond it throws. Lengths are unbounded `nat`s, so ids never take JavaScript's exponent form either.
- Real time from `setTimeout` is left out. The 200 ms delay is the separate `FireReply` step over the first-in-first-out `pending` queue. The source cannot cancel a timer, so there is nothing to cancel here either. A timer that fires after the component is torn down is just one more `FireReply`.
- `performance.now` and `requestAnimationFrame` are left out too. The start time is the `now` parameter of `ScrollToBottom`, and each frame is a call of `Step` with its time stamp. Whoever calls `Step` asks for the next frame when it returns true.
- Two animations can run at once, each frame chain using its own start values. That is event-loop concurrency and is not modelled beyond separate `Step` calls.
- Floating point is left out: the animation uses exact reals. `Math.pow(x, 3)` is the exact cube. The easing curve's shape between its endpoints is not modelled, and neither is its monotonicity. `scrollTop` is not rounded.
- The browser's clamping of `scrollTop` is not modelled. So `PinToBottom` keeps `scrollHeight` as the stored offset.
- `ChatScroll.PinToBottom`: the `nextTick` await is collapsed. The assignment happens in the same call and reads the geometry the container has at that point, which stands for the geometry after the render flush. The container going away during the await is not modelled.
- `UseChatScroll.FramePositionBetween` requires a frame time not before the start. With an earlier time stamp, progress and the eased value would be negative, and the model does not forbid that.
- The lifecycle hooks are framework and DOM plumbing and are left out:
  - `onMounted` adds the scroll listener, then after a tick scrolls at once to the bottom and focuses the text area.
  - `onUnmounted` removes the listener.
  - `onUpdated` only calls `CheckScrollPosition` again.
- After attaching, the container may be replaced or set to null. The framework changes the `container` field itself, and no method for this is modelled.
