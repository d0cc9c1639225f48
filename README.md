# Home page feed of WinProd AI, modelled in Dafny

This project models the logic inside the `Home` page component of the WinProd AI web
application (`src/pages/Home.tsx`): the product feed that loads five products per page
as the visitor scrolls, its "has more" rule and its in-flight guard, the
call-to-action overlay shown to visitors who are not signed in, the bookmark toggle, the
per-product release countdowns, and the two time-remaining breakdowns and the
"N units ago" label. The component calls a hosted database and auth service; every reply
of those calls is an argument here (rows, a null reply or an error; a user or none; a
success flag for insert and delete).

Layout:

- `wrappers.dfy` (`Wrappers`): the Option datatype.
- `arith.dfy` (`Arith`): quotient and remainder facts used by the breakdowns.
- `countdown.dfy` (`Countdown`): `calculateTimeRemaining` and `getTimeRemaining` over
  millisecond instants, with JavaScript's truncating `%` written out (`JsRem`) and
  `Math.floor` as Dafny's division by a positive divisor. Negative differences are
  modelled as the code computes them, not clamped.
- `time_ago.dfy` (`TimeAgo`): `formatTimeAgo`, the decimal rendering of its number and a
  reader that gets the number back.
- `feed.dfy` (`Feed`): the feed state as a value, and the transitions the handlers make:
  `FirstPage` (fetchProducts), `Request`/`Start`/`Finish` (loadMoreProducts before and after
  its query), `ShouldLoad` (the sentinel's observer), `Step`/`Run` over events, and the
  session invariant `Inv`.
- `feed_session.dfy` (`FeedSession`): what holds across a session: the invariant, the real
  bound of the loaded count, append-only growth, aligned windows, exhaustion, and, with
  replies served from a fixed table, that the feed is a gap-free prefix of it; the 22-row
  and 25-row scenarios.
- `overlay.dfy` (`Overlay`): the overlay rule and the partly hidden rows.
- `saved.dfy` (`Saved`): the bookmark toggle on a set of product ids.
- `release_times.dfy` (`ReleaseTimes`): the countdown map the page fills with `forEach`,
  as a loop, and its keys and values.
- `home.dfy` (`HomePage`): class `Home` holding the component's state in fields; each
  handler is a method whose postcondition ties the new state to the transition functions
  and keeps `Valid()` (the feed invariant plus "the overlay flag equals the overlay rule").

Behaviour of the code worth knowing:

- The window of a load from page `p` is rows `p*5` to `p*5+4` (lines 212-214), and
  `page` starts at 1 (line 21). `LoadWindowFollowsFeed` shows that each load starts right
  after the rows already loaded.
- `MAX_PRODUCTS` (22, line 12) is a soft limit. At 20 rows `hasMore` is still true
  (line 249), so one more full page makes 25 (`SoftCapReaches25`). The true bound is 25
  (`SessionBounds`).
- While the next-release countdown is overdue, every tick asks for the next release again
  (lines 95-101; `Home.ReleaseTick`).
- `loadMoreProducts` does not check `hasMore` itself; the observer callback does
  (line 268). A load also needs a rendered last row and no load running (lines 263, 452,
  462); `ShouldLoad` states the whole guard.

## Model

| member | source | states |
|---|---|---|
| Countdown.JsRem | src/pages/Home.tsx:113-115 | JavaScript `%` by a positive divisor: the ordinary remainder for a non-negative dividend, and minus the remainder of the negated dividend (so in (-b, 0]) for a negative one |
| Countdown.CalculateTimeRemaining | src/pages/Home.tsx:109-119 | for a target not yet passed: seconds and minutes in [0,59], hours in [0,23], days >= 0 (RemainingDecomposes adds the reconstruction of the difference) |
| Countdown.RemainingDecomposes | src/pages/Home.tsx:109-119 | for a target not yet passed: seconds and minutes in [0,59], hours in [0,23], days >= 0, and days, hours, minutes, seconds and the leftover milliseconds add back up to the difference |
| Countdown.OverdueNotClamped | src/pages/Home.tsx:109-119 | for a passed target nothing is clamped: days are negative and the other fields lie in [-60,0] |
| Countdown.GetTimeRemaining | src/pages/Home.tsx:337-338 | all zero while no next release time is known |
| Countdown.ClockDecomposes | src/pages/Home.tsx:340-345 | for a target not yet passed: seconds and minutes in [0,59], hours >= 0 and unwrapped, and together they add back up to the difference |
| Countdown.ClockAgreesWithRemaining | src/pages/Home.tsx:337-346 | the countdown's minutes and seconds equal the breakdown's, and its hours are the breakdown's days times 24 plus its hours |
| TimeAgo.NatToString | src/pages/Home.tsx:324 | the numeral of a natural number is a non-empty string of digits with no leading zero |
| TimeAgo.NatToStringRoundTrip | src/pages/Home.tsx:324 | the digits of a natural number read back as that number |
| TimeAgo.IntToStringRoundTrip | src/pages/Home.tsx:324 | the numeral of any integer, negative ones included, reads back as that integer |
| TimeAgo.BucketThresholds | src/pages/Home.tsx:321-334 | the cascade of floors picks seconds below 60, minutes below 3600, hours below 86400 and days beyond, with value s, s div 60, s div 3600 or s div 86400 |
| TimeAgo.Bucket | src/pages/Home.tsx:324-333 | the unit cascade: minutes shown are in [1,59], hours in [1,23], days >= 1 (BucketThresholds gives the unit and value) |
| TimeAgo.FormatTimeAgo | src/pages/Home.tsx:321-334 | the label always ends in " ago" (PluralRule and LabelNumber give its suffix and number) |
| TimeAgo.LabelText | src/pages/Home.tsx:321-334 | with s the elapsed whole seconds: below 60 the label is "<s> seconds ago"; below 3600 "<s div 60> minute(s) ago"; below 86400 "<s div 3600> hour(s) ago"; otherwise "<s div 86400> day(s) ago", singular exactly when the number is 1 |
| TimeAgo.RenderText | src/pages/Home.tsx:324-333 | the label of each unit spelled out: a number, the unit word (singular only for minutes, hours and days equal to 1) and " ago" |
| TimeAgo.PluralRule | src/pages/Home.tsx:324-333 | the label ends in "s ago" exactly when the unit is seconds or the value is not 1 |
| TimeAgo.LabelNumber | src/pages/Home.tsx:324-333 | the label's first word reads back as the value of the chosen unit |
| Feed.NextWindow | src/pages/Home.tsx:212-214 | the window of a load from page p starts at p*5 and holds 5 rows |
| Feed.FirstPage | src/pages/Home.tsx:149-198 | an error leaves the feed unchanged; rows replace the feed with exactly those rows, a null reply with no rows; the loaded count equals the length and has-more holds exactly for a full page; loading is cleared |
| Feed.Request | src/pages/Home.tsx:207-214 | a load issues a request exactly when none is in flight, for the window starting at page*5 |
| Feed.Start | src/pages/Home.tsx:208-210 | after the synchronous part a load is in flight and a second call requests nothing; nothing but the in-flight flag changes |
| Feed.Finish | src/pages/Home.tsx:222-257 | old rows keep their places; a non-empty page is appended, advances the page by one and sets has-more exactly for a full page below 22; an empty or null page only ends the feed; an error changes nothing; the in-flight flag is cleared and the count tracks the length |
| Feed.ShouldLoad | src/pages/Home.tsx:263-268 | a load the sentinel starts always issues a request and changes the state (Home.SentinelVisible and LoadWindowFollowsFeed give the rest) |
| Feed.Step | src/pages/Home.tsx:149-270 | an exhausted state, with nothing loading, is left unchanged by every event; a sentinel hit never changes the rows or the page |
| Feed.Inv | src/pages/Home.tsx:190-251 | the session invariant; it implies the count stays below 22 + 5 and that from 22 rows on there is no more (StepInv and RunInv keep it) |
| FeedSession.StepInv | src/pages/Home.tsx:149-276 | every event keeps the session invariant |
| FeedSession.RunInv | src/pages/Home.tsx:149-276 | every sequence of events keeps the session invariant |
| FeedSession.SessionBounds | src/pages/Home.tsx:237-251 | from mount, the loaded count equals the feed length, never passes 25 (so stays below 22 + 5), and from 22 on the feed has no more |
| FeedSession.LoadWindowFollowsFeed | src/pages/Home.tsx:212-214 | a load the sentinel starts asks for the five rows right after those already loaded |
| FeedSession.WindowsAdjacent | src/pages/Home.tsx:157-214 | the first window and every next one meet with no gap and no overlap |
| FeedSession.ExhaustedIsFinal | src/pages/Home.tsx:249-269 | once has-more is false no event changes the feed or starts a load |
| FeedSession.OneRequestInFlight | src/pages/Home.tsx:207-210 | the sentinel firing twice in a row starts at most one load, and the second firing changes nothing |
| FeedSession.AppendOnly | src/pages/Home.tsx:240 | across any events the rows already loaded stay in place and the count never decreases |
| FeedSession.HonestStep | src/pages/Home.tsx:212-240 | with a reply served from a fixed table, one event keeps the feed a prefix of that table |
| FeedSession.HonestRunIsPrefix | src/pages/Home.tsx:153-240 | with replies served from a fixed table, the feed is always a prefix of it: no row skipped, none loaded twice |
| FeedSession.FirstRound | src/pages/Home.tsx:153-192 | the first reply from a table loads its first five rows (or all of a shorter one) and has more exactly when the table has five |
| FeedSession.LoadRound | src/pages/Home.tsx:207-257 | one sentinel hit answered by the table starts one load, appends the next rows and sets has-more exactly for a full page below 22 |
| FeedSession.FullPages | src/pages/Home.tsx:207-249 | after n answered loads of full pages the feed is the first 5(n+1) rows, on page n+1, with n loads started |
| FeedSession.TwentyTwoRowTable | src/pages/Home.tsx:237-251 | with a table of 22 rows, the first page and four loads bring the whole table, has-more is false and no later event starts a load |
| FeedSession.SoftCapReaches25 | src/pages/Home.tsx:249 | with a table of 25 or more rows the feed reaches 25 rows, more than the limit of 22 |
| Overlay.OverlayShown | src/pages/Home.tsx:351-358 | the overlay is never shown to a signed-in user nor below 20 loaded rows (HiddenRows gives the converse) |
| Overlay.PartiallyHidden | src/pages/Home.tsx:457 | a hidden row is row 20 or 21 and the overlay is shown |
| Overlay.HiddenRows | src/pages/Home.tsx:457 | a row is partly hidden exactly when it is row 20 or 21, at least 20 rows are loaded and the visitor is not signed in; signing in hides the overlay |
| Overlay.UncoveredTail | src/pages/Home.tsx:457 | rows from 22 on are never covered, and there are at most three of them |
| Saved.SaveCallFor | src/pages/Home.tsx:285-307 | without a user the toggle redirects; with one it deletes exactly when the product is saved, otherwise inserts, for that product |
| Saved.Toggle | src/pages/Home.tsx:290-312 | no other id changes membership; the product's membership flips exactly when a user is signed in and the call succeeded |
| Saved.ToggleTwice | src/pages/Home.tsx:290-312 | two successful toggles of one product restore the set |
| ReleaseTimes.Countdowns | src/pages/Home.tsx:76-81 | the forEach fold never drops a key already present (CountdownKeys and CountdownValues give its keys and values) |
| ReleaseTimes.FillCountdowns | src/pages/Home.tsx:76-81 | the loop leaves the map the forEach specification gives |
| ReleaseTimes.CountdownKeys | src/pages/Home.tsx:228-233 | the keys afterwards are the keys before plus the ids of the products not yet released |
| ReleaseTimes.CountdownValues | src/pages/Home.tsx:226-233 | with distinct ids each upcoming product's entry is its own time remaining, and other entries are kept |
| ReleaseTimes.TickKeys | src/pages/Home.tsx:74-83 | the map rebuilt from nothing has exactly the ids of the loaded products not yet released as keys |
| HomePage.Home.constructor | src/pages/Home.tsx:16-33 | the state at mount: no rows, page 1, has more, loading, nothing saved, no overlay |
| HomePage.Home.CheckAuth | src/pages/Home.tsx:41-45 | records whether a user is signed in and keeps the overlay equal to its rule; a signed-in user never sees it |
| HomePage.Home.FetchProducts | src/pages/Home.tsx:149-198 | the feed becomes FirstPage of the reply; the saved set is replaced by the looked-up ids only for a signed-in user whose lookup succeeded; the countdowns are built from the reply's rows |
| HomePage.Home.LoadMoreProducts | src/pages/Home.tsx:207-220 | the feed becomes Start of it and the request is Request of it: nothing when a load is in flight |
| HomePage.Home.ReceiveMoreProducts | src/pages/Home.tsx:222-257 | the feed becomes Finish of the reply, the new rows' countdowns are merged into the map, and the overlay stays equal to its rule |
| HomePage.Home.SentinelVisible | src/pages/Home.tsx:261-270 | a load starts exactly when ShouldLoad holds, and requests the five rows after those loaded |
| HomePage.Home.ToggleSaveProduct | src/pages/Home.tsx:278-313 | returns the call SaveCallFor gives and leaves the set Toggle gives |
| HomePage.Home.Tick | src/pages/Home.tsx:70-84 | the countdown map is rebuilt with exactly the upcoming loaded products' ids as keys |
| HomePage.Home.ReleaseTick | src/pages/Home.tsx:92-103 | a refetch of the next release is asked for on every tick at which the countdown has reached or passed zero |
| HomePage.Home.ReceiveNextRelease | src/pages/Home.tsx:134-141 | the next release time is the one fetched |

## Left out

- The `console.error` logging on the error paths (lines 59, 144, 194, 254): an observability
  side effect that changes no state; the error paths themselves are modelled.
- Rendering (the JSX, lines 360-645), `navigate` (modelled only as the `RedirectToLogin`
  call), and `handleShowMeMoney`'s `window.location` (line 317): presentation and navigation.
- The database and auth calls themselves: their replies are arguments. The subscription
  lookup and the `userSubscription` state (lines 47-60) have no effect on the feed.
- `fetchNextRelease` (lines 122-146): the query's filtering and ordering run in the database,
  and the fallback uses calendar arithmetic on `Date`. Only its result is modelled
  (`Home.ReceiveNextRelease`).
- The `setInterval` timers and the IntersectionObserver wiring (lines 69-106, 261-276):
  timing and event delivery. The observer is modelled only as its guard, and each tick as a
  method call. React's batching and stale closures are not modelled; each handler reads the
  current state. The separate `new Date()` readings inside one handler are one `now`.
- The inline "Posted N day ago" expression (lines 498-500) and the product fields the
  logic does not read (name, images, prices).
- `src/lib/email-templates.ts`: a static table of HTML strings; substitution and delivery
  happen outside this repository.
- JavaScript floating point: the breakdowns and `formatTimeAgo` use exact integer
  arithmetic on milliseconds; `formatTimeAgo` takes its date as milliseconds, so an
  unparsable date string (NaN) is not modelled.
- HomePage.Home.FetchProducts and HomePage.Home.ReceiveMoreProducts: assume the database
  honours `range`, so a reply holds at most five rows (`FitsPage`); FetchProducts is
  stated for the single call at mount, while `loading` is still set.
- HomePage.Home.LoadMoreProducts: stated for calls from its only caller, the observer,
  which calls it only with rows shown, more to load and the first page in.
- ReleaseTimes.CountdownValues: stated for products with distinct ids; with repeated ids
  the last upcoming one wins, which is not stated.
- FeedSession.HonestRunIsPrefix: assumes the table does not change during the session.
