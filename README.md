# rss2telegram: new-item selection and watermark advance

This project models the core of `RSS2Telegram`, a cloud function that posts
new items of one RSS/Atom feed to one Telegram chat. Each invocation:

1. checks that `RSS_FEED_URL`, `TELEGRAM_BOT_API_TOKEN` and `TELEGRAM_CHAT_ID`
   are set, in that order, and fails on the first empty one;
2. fetches and parses the feed;
3. reads the watermark for (chat, feed URL) from the Firestore collection
   `chats`. The watermark is the publish time of the last item already
   processed;
4. walks the feed items from the last index down to 0. It skips items with no
   publish time and items not strictly after the watermark. For every other
   item it records that item's time as `newPublishedAt` and posts the message
   `*title*\n\n` + Markdown content. A failed post is logged and ignored;
5. writes `newPublishedAt` back as the new watermark, unless it is the zero
   time.

Modules, one per component:

- `Wrappers` (wrappers.dfy): `Option` and `Result`.
- `Feed` (feed.dfy): the feed item, the "is new" rule, and three reference
  functions. `Filter` gives the new items in feed order. `Processed` gives them
  in loop order. `NewPublishedAt` gives the value the loop leaves in
  `newPublishedAt`. Lemmas about them are here too.
- `Message` (message.dfy): the message text, with the fallback to raw HTML
  when conversion fails.
- `Config` (config.dfy): the three required settings and their check order.
- `Store` (store.dfy): the watermark store. It holds a nested map from chat id
  to feed URL to value. The read is a pure function of the document snapshot.
  The write is a method of the `WatermarkStore` class that updates the map in
  place.
- `Rss2Telegram` (rss2telegram.dfy): `DeliverNew`, the selection loop as a
  `while` loop proved against `Processed` and `NewPublishedAt`; and
  `RSS2Telegram`, the whole invocation. Each post is recorded as an `Attempt`:
  the item's index, the item, the text and whether the post succeeded.

Modelling choices:

- Timestamps are integers, and 0 stands for Go's zero `time.Time`. On a
  timestamp, `After` is `>` and `IsZero` is `== 0`.
- The outside world enters as parameters:
  - `fetch`: the parsed feed, or the fetch error;
  - `convert`: the HTML-to-Markdown converter, which may fail;
  - `sendOk(i)`: whether the post for feed item `i` succeeded;
  - `readFault`, `updateFault`, `setFault`: whether the Firestore `Get`,
    `Update` or `Set` fails for a reason other than "not found".
- A chat document is modelled by its `publishedAt` mapping. A value in it is
  either a timestamp or `OtherValue`, which stands for data of the wrong type.

Behaviour of the code worth knowing:

- **Which time is stored.** The code stores the time of the last item
  selected in processing order (the selected item with the lowest index),
  not the largest selected time; the two agree only on newest-first feeds.
  `WatermarkIsNotTheMaximum` shows a two-item oldest-first feed on which a
  re-run selects the newer item again.
- **Emission order.** That selected items come out in non-decreasing time
  order is guaranteed on newest-first feeds, which is what
  `NewestFirstDeliversChronologically` assumes.
- **Edge case kept as written.** If the stored watermark is before the zero
  time and the selected item with the lowest index is at exactly the zero
  time, `newPublishedAt` is zero, and nothing is written. Lemmas that rely
  on "zero means nothing selected" assume a watermark at or after the zero
  time. `RerunDeliversNothing` shows that such a store stays that way after
  each run.

## Model

| member | source | states |
|---|---|---|
| `Feed.IsNew` | rss2telegram.go:82-90 | an item is new when it has a publish time and that time is strictly after the watermark |
| `Feed.FilterMembership` | rss2telegram.go:81-92 | an item is selected iff it occurs in the feed, has a publish time and that time is strictly after the watermark |
| `Feed.ProcessedMembership` | rss2telegram.go:80-92 | the items met by the loop are exactly the feed's items that have a time strictly after the watermark |
| `Feed.BoundaryExcluded` | rss2telegram.go:87-90 | an item whose time equals the watermark is never selected (the comparison is strict) |
| `Feed.ProcessedIsReversedFilter` | rss2telegram.go:80-81 | the processing order is the reverse of the new items in feed order |
| `Feed.NewPublishedAtIsLowestSelected` | rss2telegram.go:78-92 | `newPublishedAt` is zero when nothing is selected; otherwise it is the time of the selected item with the lowest index, which is the last one processed |
| `Feed.WatermarkAdvances` | rss2telegram.go:87-92 | once anything is selected, `newPublishedAt` is strictly after the watermark; the stored watermark never moves back; from a watermark at or after zero, `newPublishedAt` is zero iff nothing is selected |
| `Feed.UntimedItemIgnored` | rss2telegram.go:82-85 | inserting an item with no publish time anywhere in the feed changes neither the selection, nor the processing order, nor `newPublishedAt` |
| `Feed.NewestFirstCovers` | rss2telegram.go:80-92 | on a newest-first feed, `newPublishedAt` is at least the time of every selected item |
| `Feed.RerunSelectsNothing` | rss2telegram.go:80-104 | on a newest-first feed, selecting again against the watermark a run leaves behind selects nothing |
| `Feed.NewestFirstDeliversChronologically` | rss2telegram.go:80-97 | on a newest-first feed, the items are processed in non-decreasing time order |
| `Feed.WatermarkIsNotTheMaximum` | rss2telegram.go:92 | on the oldest-first feed [t=1, t=2] with no watermark, `newPublishedAt` is 1 and a re-run selects the t=2 item again |
| `Feed.NewestFirstExample` | rss2telegram.go:80-92 | the feed at times 3, 2, 1 with watermark 1 processes the item at 2, then the item at 3, and leaves `newPublishedAt` at 3 |
| `Message.RenderContent` | rss2telegram.go:162-166 | the body is the converted content when conversion succeeds, and the raw HTML when it fails |
| `Message.MessageText` | rss2telegram.go:168 | the message text: the title between asterisks, a blank line, then the rendered body |
| `Message.MessageLayout` | rss2telegram.go:168 | the text is `*`, the title, `*`, a blank line, then the rendered body, with lengths adding up |
| `Message.ConversionFailureFallsBack` | rss2telegram.go:162-168 | when conversion fails, the text is the bold title followed by the raw content |
| `Message.SameTitleSameHeader` | rss2telegram.go:168 | for items with equal titles, the texts are equal iff the rendered bodies are equal |
| `Config.Validate` | rss2telegram.go:52-63 | reports the first empty setting in the order feed URL, bot token, chat id (each case an iff), or nothing when all three are set |
| `Config.ErrorMessage` | rss2telegram.go:54-62 | the message "environment variable X not set", naming the missing setting |
| `Config.ErrorMessagesDistinct` | rss2telegram.go:52-63 | the three missing-setting messages are pairwise distinct |
| `Store.ReadPublishedAt` | rss2telegram.go:110-133 | fails iff the backend read fails; returns the stored time when present and a timestamp; returns the zero time when the document, the path or a value of the right type is missing |
| `Store.Upsert` | rss2telegram.go:136-159 | sets exactly (chat, url) to the time; other URLs of the chat and other chats keep their values; a missing chat document is created holding only that entry |
| `Store.ReadAfterUpsert` | rss2telegram.go:110-159 | after a write, (chat, url) reads back as the time written, and every other pair reads as before |
| `Store.WatermarkStore.WritePublishedAt` | rss2telegram.go:136-159 | fails iff the update fails for a reason other than not found, or the document is missing and the create fails; on failure the store is unchanged, otherwise it is the upsert of the old store and (chat, url) reads back as the time written |
| `Rss2Telegram.DeliverNew` | rss2telegram.go:78-97 | the loop's deliveries are exactly the new items, from the highest index down, each with its text and post outcome; `newPublishedAt` is the reference value; neither depends on the post outcomes |
| `Rss2Telegram.AttemptedAreNew` | rss2telegram.go:81-94 | every delivered item has a publish time strictly after the watermark, and as many items are delivered as are new |
| `Rss2Telegram.FailedDeliveriesStillAdvance` | rss2telegram.go:92-104 | the last attempted item, delivered or not, sets `newPublishedAt`; on a newest-first feed that value is at least every attempted item's time, failed posts included |
| `Rss2Telegram.RunAdvancesWatermark` | rss2telegram.go:99-104 | after a successful run the stored watermark is `newPublishedAt` if that is non-zero and the old watermark otherwise; it never moves back; no other (chat, url) entry changes |
| `Rss2Telegram.RerunDeliversNothing` | rss2telegram.go:73-104 | on a newest-first feed and a store with no times before zero, a run right after a successful one delivers nothing, and the store still has no times before zero |
| `Rss2Telegram.RSS2Telegram` | rss2telegram.go:51-107 | a missing setting fails before any fetch; a fetch or read failure delivers nothing and leaves the store alone; otherwise it delivers exactly the new items; it writes iff `newPublishedAt` is non-zero, with exactly that value; a write error is returned after all deliveries |

## Left out

- `cmd/main.go` is not part of this model: it only calls the function and logs fatally.
- The construction of the Firestore client and the HTML converter (rss2telegram.go:20-41): process-wide initialisation with no logic.
- Fetching and parsing the feed with gofeed: the model takes the parsed items, or a single fetch error, as input.
- The converter's internals: the model uses an opaque function that may fail.
- The HTTP POST to the Telegram API, reading the response body and checking the status code: the model uses one success/failure value per feed item (`sendOk`). The form fields (`chat_id`, `parse_mode`, `disable_web_page_preview`) are not modelled.
- Reading environment variables and writing log lines: only side effects. The settings are an input value.
- The request context and gRPC status codes: a backend call either succeeds, reports not found, or fails.
- `time.Time` time zones, monotonic readings and sub-second precision: integer timestamps are enough for `After` and `IsZero`.
- A chat document whose `publishedAt` field exists but is not a map: the model treats it like a document without that field.
- Two concurrent invocations for the same (chat, feed) pair: this is concurrency, and the source has no locking to model.
