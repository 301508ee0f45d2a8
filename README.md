# D&D session manager — verified model of its core

This project is a Dafny model of the logic inside a browser-based D&D 3.5 Dungeon
Master tool. The model has three parts:

- **The offline cache agent (`sw.js`).** This service worker decides how each request
  is answered. The monster and spell databases under `/data/` are served cache-first
  and revalidated by ETag. Static files are served cache-first. Everything else is
  served network-first, falling back to any cache. The agent also deletes stale cache
  generations when it activates, preloads the databases, and answers two control
  messages: clear the cache, and check for an update.
- **The session state (`js/app.js`).** The model covers the handlers that change the
  shared `AppState`:
  - the capped session log;
  - creating, toggling and removing player characters (PGs);
  - sharing the experience pool;
  - hit-point updates, including the defeat of monsters;
  - adding PGs to the fight and ordering it by initiative;
  - the search filter over the monster and spell lists.
- **The rules arithmetic (`js/modules/rules35.js`).** This is the ability modifier and
  the armour-class formula.

The project is organised as follows:

| file | module | form |
|---|---|---|
| `wrappers.dfy` | `Wrappers` | The `Option` type. |
| `seqs.dfy` | `Seqs` | `Array.prototype.filter`, `indexOf`, `findIndex` and `splice` as functions on sequences, with their properties. |
| `js_text.dfy` | `JsText` | The string built-ins the core relies on: `includes`, `endsWith`, `trim`, `toLowerCase` and `parseInt`. |
| `rules35.dfy` | `Rules35` | Pure functions and lemmas. |
| `service_worker.dfy` | `ServiceWorker` | See below. |
| `session.dfy` | `Session` | See below. |

`service_worker.dfy` has two layers:

- Routing and each strategy's effect are pure functions on the cache store.
- The class `CacheAgent` holds the store (a map from cache name to a map from URL to
  response). Its methods update the store step by step. Each method is proved equal
  to the pure function, and to keep every stored response ok.

The network is an oracle. It is either a value `Fetched` (a response, or a
`NetworkError`) passed to a method, or a function from URL to `Fetched` for the
operations that fetch many URLs.

The Cache API's `cache.put` and `cache.addAll` reject a 206 Partial Content answer
even though it is ok. A response is therefore `Storable` when it is ok and not 206. When a
put rejects, each strategy takes its own catch path.

`session.dfy` also has two layers:

- The state changes are specified by functions on sequences: `Logged`, `Toggled`,
  `Granted`, `Merged`, `MirrorHp` and `SortByInitiative`.
- The class `AppState` keeps five of the source's `AppState` fields. The `monsters`
  and `spells` catalogues are not fields; `Search` takes them as parameters. Its
  methods state their whole new state in terms of those functions. The lemmas then
  prove what the functions promise.

JavaScript values are modelled as follows:

| JavaScript | model |
|---|---|
| A numeric field read with a fallback (`x`, or `d` when `x` is 0 or absent) | `Or(x, d)`. An absent number is `0`. |
| `instanceId` and PG ids | `int`, so the loose `==` and the strict `===` agree. |
| The prompt, confirm dialog, checked boxes and clock | Parameters. |
| A log line | A structured `LogEntry(time, event)`. |

## Model

| member | source | states |
|---|---|---|
| Rules35.GetModifier | js/modules/rules35.js:2 | The modifier is the floor of (score-10)/2: `2m <= score-10 < 2m+2`. |
| Rules35.GetModifierExamples | js/modules/rules35.js:2 | Scores 10 and 11 give 0, 9 gives -1, 18 gives 4. |
| Rules35.GetModifierMonotone | js/modules/rules35.js:2 | A higher score never gives a lower modifier. |
| Rules35.GetModifierStep | js/modules/rules35.js:2 | Two more points of score give exactly one more point of modifier, for every integer score. |
| Rules35.GetModifierIsFloorDivision | js/modules/rules35.js:2 | The modifier equals Euclidean division of score-10 by 2, which is the floor for this positive divisor. |
| Rules35.CalculateACShift | js/modules/rules35.js:4-7 | Raising any one of dexMod, armor and shield by d raises the AC by exactly d. |
| Rules35.CalculateACMonotone | js/modules/rules35.js:4-7 | Larger bonuses never give a lower AC, and with no negative field present the AC is at least 10. |
| Rules35.CalculateACOfEmpty | js/modules/rules35.js:4-7 | With no fields the AC is 10. |
| Rules35.CalculateACIgnoresNaturalAndSize | js/modules/rules35.js:4-7 | The natural-armour and size values named in the comment do not change the AC. |
| Rules35.CalculateACZeroIsMissing | js/modules/rules35.js:4-7 | A field given as 0 gives the same AC as a missing field. |
| Session.GetModIsGetModifier | js/app.js:33 | The app's `getMod` and `Rules35.getModifier` compute the same function. |
| JsText.Contains | js/app.js:857 | `includes` holds exactly when the needle occurs at some index of the text. |
| JsText.ContainsShorterNeedle | js/app.js:857 | Text that contains a longer query also contains every prefix of it. |
| JsText.ContainsInAppend | sw.js:99 | An occurrence in the second part of a concatenation remains an occurrence in the whole string. |
| JsText.ContainsInPrepend | sw.js:99 | An occurrence in the first part of a concatenation remains an occurrence in the whole string. |
| JsText.EndsWithAppend | sw.js:99 | A string ending with `s` still ends with `s` after anything is put in front of it. |
| JsText.TrimStart | js/app.js:91 | The result is a suffix of the input, everything dropped is whitespace, and the result is empty or starts with a non-whitespace character. |
| JsText.TrimEnd | js/app.js:91 | The result is a prefix of the input, everything dropped is whitespace, and the result is empty or ends with a non-whitespace character. |
| JsText.Trim | js/app.js:91 | The result is no longer than the input and has no whitespace at either end. It is empty exactly when the input is all whitespace, which is the blank name `addPG` rejects. |
| JsText.TrimIsMiddle | js/app.js:91 | The result is the run of the input that starts after the leading whitespace and ends before the trailing whitespace. |
| JsText.ToLower | js/app.js:844 | The length is kept, each upper-case ASCII letter is mapped to its lower-case letter, and every other character is kept. |
| JsText.ToLowerAppend | js/app.js:844 | Lower-casing commutes with concatenation. |
| JsText.ToLowerIdempotent | js/app.js:844 | Lower-casing twice gives the same text as lower-casing once. |
| JsText.DigitPrefix | js/app.js:444 | The result is the longest prefix of the input made only of digits. |
| JsText.Decimal | js/app.js:444 | The decimal spelling of a natural number is a non-empty string of digits. |
| JsText.ParseInt | js/app.js:444 | `parseInt` gives `NaN` (`None`) exactly when no digit follows the leading whitespace and optional sign. Otherwise the result is the value of that digit run, negated after a leading `-`. |
| JsText.DigitsValueOfDecimal | js/app.js:444 | Reading back the decimal spelling of `n` gives `n`. |
| JsText.DigitPrefixOfDigits | js/app.js:444 | Digits followed by a non-digit have exactly those digits as their digit prefix. |
| JsText.ParseIntUnsigned | js/app.js:533 | Parsing unsigned digits gives their value. |
| JsText.ParseIntOfDecimal | js/app.js:533 | `parseInt` of a number's decimal spelling, followed by any non-digit text, gives back that number. |
| JsText.ParseIntOfNegativeDecimal | js/app.js:533 | `parseInt` of "-" followed by a decimal spelling gives the negated number. |
| JsText.ParseIntOfNonNumber | js/app.js:533 | Text that starts with a character that is not a digit, sign or whitespace parses to `NaN`. |
| Seqs.FilterMembers | js/app.js:76 | The elements of the filtered list are exactly the elements of the input that pass the test. |
| Seqs.FilterConcat | js/app.js:76 | Filtering a concatenation is the concatenation of the filtered parts. |
| Seqs.FilterAllKept | js/app.js:76 | A list whose every element passes the test is filtered to itself. |
| Seqs.FilterCount | js/app.js:264-268 | Each kept element occurs as often as in the input; each dropped element occurs zero times. |
| Seqs.FilterDropsUpdated | js/app.js:449 | Replacing a dropped element with another dropped element does not change the filtered list. |
| Seqs.IndexOf | js/app.js:113 | `indexOf` gives the first index holding the value, or -1 exactly when the value is absent. |
| Seqs.FindIndex | js/app.js:425 | `find` picks the first element that passes the test; none is picked exactly when no element passes. |
| Seqs.RemoveAt | js/app.js:120 | `splice(i, 1)` removes exactly the element at `i` and keeps the rest in order. |
| ServiceWorker.RouteOnlyGet | sw.js:97-110 | Only GET requests are intercepted; any other verb is left to the browser. |
| ServiceWorker.RouteDataJson | sw.js:99-101 | A GET for a path that contains `/data/` and ends in `.json` uses the database strategy. |
| ServiceWorker.RouteJsonOutsideData | sw.js:99-104 | A `.json` path outside `/data/` uses the static strategy, because `.json` is one of the static extensions of `isStaticAsset`. |
| ServiceWorker.RouteDirectoryIsNetworkFirst | sw.js:262-265 | A path ending in `/` has no static extension and goes network-first. |
| ServiceWorker.RouteDatabaseFile | sw.js:17-32 | Every database asset path, under any scope, routes to the database strategy. |
| ServiceWorker.RouteManifest | sw.js:99-104 | `/manifest.json` is served as a static asset. |
| ServiceWorker.Opened | sw.js:117 | `caches.open` creates an empty cache only when the name is absent; every other cache is untouched. |
| ServiceWorker.PutCurrent | sw.js:133-135 | `cache.put` replaces exactly one key of the current cache and leaves other caches alone. |
| ServiceWorker.PutCurrentKeeps | sw.js:133-135 | A put never removes a stored entry elsewhere. Putting an ok response keeps every stored response ok. |
| ServiceWorker.OpenedKeeps | sw.js:46 | Opening a cache never removes a stored entry and keeps every stored response ok. |
| ServiceWorker.Cleaned | sw.js:66-75 | Activation cleanup leaves only `CACHE_NAME`, with its contents unchanged. |
| ServiceWorker.CleanedIdempotent | sw.js:66-75 | Cleaning twice gives the same store as cleaning once. |
| ServiceWorker.PreloadedSpec | sw.js:214-230 | Existing entries are never overwritten. A new entry is only a database asset whose fetch gave a storable answer (ok and not 206, which `cache.put` rejects). Every asset that fetched a storable answer ends up present; a rejected put stores nothing. |
| ServiceWorker.PreloadedSnoc | sw.js:214-230 | Each asset is handled independently: adding one asset to the list affects only that asset's key. |
| ServiceWorker.PreloadStep | sw.js:216-227 | One turn of the loop, storing a missing asset that fetched a storable answer, advances the store by exactly one asset and keeps every stored response ok. |
| ServiceWorker.PreloadedIdempotent | sw.js:214-230 | A second preload with the same network answers changes nothing. |
| ServiceWorker.ActivatedSingleGeneration | sw.js:61-89 | After activation only the current cache exists, and every entry it held before is still held unchanged. |
| ServiceWorker.ActivatedIdempotent | sw.js:61-89 | Activating twice gives the same store as activating once. |
| ServiceWorker.Installed | sw.js:38-58 | When every fetch gives a storable answer (ok and not 206), the current cache becomes its old entries with every static asset added (a static asset replaces its old entry). Otherwise `addAll` stores nothing: only the current cache is opened (created empty if absent). Other caches are unchanged. |
| ServiceWorker.InstalledIdempotent | sw.js:38-58 | Installing twice gives the same store as installing once. |
| ServiceWorker.InstallOneFailureStoresNothing | sw.js:49-56 | From a fresh store, one static asset without a storable answer leaves the new cache empty. |
| ServiceWorker.StrategiesKeep | sw.js:116-205 | No strategy removes a stored entry, and each keeps every stored response ok (only ok responses are put). |
| ServiceWorker.HitIgnoresNetwork | sw.js:121-158 | On a hit, the database and static strategies return the stored response whatever the network says. Only the database strategy asks for a revalidation. The store is unchanged. |
| ServiceWorker.DatabaseMiss | sw.js:130-147 | On a miss: a storable response is stored and returned; a non-ok response is returned without storing; a network error, or a 206 that `cache.put` rejects, gives the 503 JSON answer. When nothing is stored, only the current cache is opened (created empty if absent). Other caches are unchanged. |
| ServiceWorker.StaticMiss | sw.js:159-175 | On a static miss: a storable response is stored and returned; a non-ok response is returned without storing; a network error, or a 206 that `cache.put` rejects, gives the 503 text. When nothing is stored, only the current cache is opened (created empty if absent). Other caches are unchanged. No revalidation follows. |
| ServiceWorker.SyntheticAnswersNotOk | sw.js:141-174 | Both offline answers have status 503 and are not ok; one is JSON and the other plain text. |
| ServiceWorker.Revalidated | sw.js:236-257 | Revalidation changes only the requested key. It writes the network response exactly when that response is storable and the cached ETag is missing or different. Otherwise, including on an error or a rejected put, the cache is unchanged. |
| ServiceWorker.RevalidatedIdempotent | sw.js:236-257 | Revalidating twice with the same answer gives the same cache as once. |
| ServiceWorker.RevalidationKeepsStaleBody | sw.js:244-250 | An equal ETag keeps the stored body even when the server body differs. |
| ServiceWorker.AfterRevalidationKeeps | sw.js:234-259 | The background step never removes an entry and keeps every stored response ok. |
| ServiceWorker.CacheAgent.constructor | sw.js:133-135 | The agent starts from the browser's existing CacheStorage, taken as any store whose responses are all ok, since this worker only ever puts ok responses. |
| ServiceWorker.CacheAgent.Open | sw.js:211 | The new store is `Opened` of the old one. |
| ServiceWorker.CacheAgent.Install | sw.js:38-58 | The new store is `Installed` of the old one, and no entry is lost. |
| ServiceWorker.CacheAgent.DeleteOldCaches | sw.js:66-75 | The loop over the cache names deletes every other generation, leaving `Cleaned` of the old store. |
| ServiceWorker.CacheAgent.PreloadDatabases | sw.js:210-231 | The current cache is opened and becomes `Preloaded` over the database assets; other caches are unchanged. |
| ServiceWorker.CacheAgent.PreloadEach | sw.js:214-228 | The loop over the assets leaves the current cache equal to `Preloaded` of its old contents. |
| ServiceWorker.CacheAgent.Activate | sw.js:61-89 | The new store is `Activated` of the old one, with `CACHE_NAME` as the only cache. |
| ServiceWorker.CacheAgent.ServeDatabase | sw.js:116-149 | The answer, the new store and whether a revalidation follows are those of `DatabaseStep`. No entry is lost. |
| ServiceWorker.CacheAgent.ServeStaticAsset | sw.js:152-176 | The answer and new store are those of `StaticStep`. No entry is lost. |
| ServiceWorker.CacheAgent.MatchAny | sw.js:193 | A match is a response held under the URL by some cache. No match means no cache holds the URL. |
| ServiceWorker.CacheAgent.NetworkFirstWithFallback | sw.js:179-205 | A network answer is returned, and stored only if ok. A network error, or a 206 that `cache.put` rejects after the current cache is opened, falls back to a response held by some cache, or else the 503 text. |
| ServiceWorker.CacheAgent.Fallback | sw.js:193-203 | The catch of the network-first strategy answers a response held under the URL by some cache, or the 503 text exactly when no cache holds it. |
| ServiceWorker.CacheAgent.FetchAndUpdateCache | sw.js:234-259 | The new store is the ETag revalidation of the old one. |
| ServiceWorker.CacheAgent.HandleFetch | sw.js:92-111 | Only a routed request gets an answer, and each route's answer and store are those of its strategy. A database hit's revalidation then runs as a following step. |
| ServiceWorker.CacheAgent.CheckForUpdates | sw.js:287-302 | The answer is false on a network error or when `./` is not cached; otherwise it is true exactly when the cached and fetched bodies differ. |
| ServiceWorker.CacheAgent.HandleMessage | sw.js:268-284 | `CLEAR_CACHE` deletes the whole current cache and replies success. `CHECK_UPDATE` replies `hasUpdate`. Any other message, `SKIP_WAITING` included, gets no reply and leaves the caches unchanged. |
| ServiceWorker.ClearCacheForcesMiss | sw.js:273-277 | After `CLEAR_CACHE`, the next database or static request is a miss: the answer is the network's, or the strategy's 503 answer on an error or a rejected 206, and no revalidation starts. |
| Session.Logged | js/app.js:46-54 | The new entry is first, the previous entries follow in order, and the log grows by one only while below 20. |
| Session.Reversed | js/app.js:50 | The newest-first history has the same length as the input. |
| Session.ReversedAt | js/app.js:50 | Element i of the newest-first history is the input's element counted i from the end. |
| Session.LogKeepsNewest | js/app.js:46-54 | After any run of `addLog` calls the log holds the newest 20 entries, newest first. |
| Session.LoggedPrefix | js/app.js:50-51 | One `addLog` on a capped prefix gives the capped prefix of the longer history. |
| Session.FindPG | js/app.js:114 | `find` by id returns a party member with that id, and returns nothing exactly when no member has it. |
| Session.FindPGFirst | js/app.js:114 | The member `find` returns is the first one with that id. |
| Session.NameOf | js/app.js:202 | When no PG of the party has the id, the name is the empty string that `join` prints for `undefined`. Otherwise it is the name of the first PG in party order with that id. |
| Session.Names | js/app.js:235 | The list of names has one entry per id, in order, and each entry is that id's PG name. |
| Session.DropPlayer | js/app.js:122 | Filtering out a PG's player entry removes that entry and keeps every other combatant with its multiplicity. |
| Session.Toggled | js/app.js:113-124 | An absent id is appended; a present id loses one occurrence and nothing else. |
| Session.ToggledRemovesFirst | js/app.js:113-124 | A present id loses its first occurrence, and the ids before and after it keep their order. |
| Session.ToggleTwice | js/app.js:113-124 | Activating and then deactivating a PG restores the active list. |
| Session.ToggleFlips | js/app.js:113-124 | Toggling keeps the active list free of duplicates and flips whether the id is active. |
| Session.GrantOneAt | js/app.js:196-198 | Granting to one id changes only the first PG with that id, by the share. |
| Session.GainStep | js/app.js:195-200 | The gain of each PG grows by the share once per selected occurrence of its id. |
| Session.GrantedXp | js/app.js:228-233 | After the `forEach`, ids and all other fields are unchanged. The first PG with each id gains share × (times the id was selected); later duplicates gain nothing. |
| Session.SumXpUpdate | js/app.js:198 | Changing one PG's XP changes the party total by the difference. |
| Session.Found | js/app.js:196-197 | The count of selected ids found in the party is at most the number selected. |
| Session.GrantOneSum | js/app.js:196-198 | Granting to one id raises the party's total XP by the share exactly when the id is known. |
| Session.KnownSameIds | js/app.js:196 | Parties with the same ids know the same ids. |
| Session.GrantedSum | js/app.js:193-200 | The party's total XP grows by share × (number of selected ids found). |
| Session.GrantedSumStep | js/app.js:195-200 | One more selected id raises the total by the share exactly when it is found. |
| Session.SharesFit | js/app.js:193 | The floor share times at most n recipients stays within the pool. |
| Session.Share | js/app.js:193 | The share is the floor of pool/n: `share*n <= pool < share*n + n`. |
| Session.SharedWithinPool | js/app.js:188-205 | With a non-negative pool, the XP handed out is between 0 and the prior pool. |
| Session.NewHp | js/app.js:429-432 | The new HP is never negative. It is 0 exactly when start + amount <= 0, and equals start + amount otherwise. |
| Session.PlayerAtZeroRestarts | js/app.js:429 | A player whose HP reads 0 starts again from `hpMax`. |
| Session.CrRewardFromTable | js/app.js:30 | Every CR listed in the XP table gives its table value, for example 100 for "1/2". |
| Session.RewardFromRating | js/app.js:444 | A monster without its own `rewardXP` is worth the table value of a listed CR, or 500 per point of a numeric CR outside the table. |
| Session.CrRewardOutsideTable | js/app.js:444 | A numeric CR outside the table gives 500 XP per point. |
| Session.CrRewardOfNonNumber | js/app.js:444 | A CR that is neither in the table nor a number gives 0. |
| Session.MirrorHp | js/app.js:435-440 | The first party PG with the combatant's id gets the new HP. Every other PG is unchanged, later PGs with the same id included. |
| Session.FindFirstIsFirst | js/app.js:425 | `find` returns the first match. |
| Session.DefeatedLeaves | js/app.js:449 | Every entry with the defeated one's instanceId is gone; every combatant with another instanceId is kept with its multiplicity. |
| Session.JoinCombat | js/app.js:383-395 | The new entry is a player with the PG's id as `instanceId` and `maxHp = hpMax + level × modifier(con)`. Its current HP is the PG's, or that maximum when the PG's reads 0. |
| Session.MergedAppends | js/app.js:376-398 | Adding to combat keeps the old combatants as a prefix, and each new entry is the joined form of a checked PG. |
| Session.MergedKeepsPlayersUnique | js/app.js:379-381 | A PG already present as a player is never added again, so player ids stay unique. |
| Session.MergedCovers | js/app.js:376-398 | Every checked PG that exists ends up in the fight as a player. |
| Session.InsertByInitiative | js/app.js:534 | Inserting into a descending list keeps it descending and adds exactly the new combatant. |
| Session.RanksBelow | js/app.js:534 | An insertion below the head keeps the list descending. |
| Session.SortByInitiative | js/app.js:534 | The result is ordered by descending initiative and is a permutation of the input. |
| Session.InsertKeepsTies | js/app.js:534 | Insertion puts a new combatant ahead of those with equal initiative, and keeps their order. |
| Session.PassHigherKeepsTies | js/app.js:534 | Moving past a higher-initiative head keeps the order of the ties. |
| Session.InitiativeOfNumber | js/app.js:533 | A typed whole number, signed or not and followed by non-digits, gives that initiative; text that is not a number gives 0. |
| Session.SortKeepsTies | js/app.js:534 | The sort is stable: combatants with equal initiative keep their relative order. |
| Session.ResetCombatKeepsPlayers | js/app.js:76 | The reset keeps exactly the player combatants, with their multiplicities and in order; a fight of players only is unchanged. |
| Session.RemovedEverywhere | js/app.js:264-268 | Removal drops the PG from the party, the active list and the player entries, and keeps everything else with its multiplicity. |
| Session.Search | js/app.js:843-861 | A query shorter than 2 shows no results. Otherwise every matching entry of each requested kind is listed, only matching entries are listed, and a kind not requested is empty. |
| Session.SearchNarrows | js/app.js:857-860 | Typing more characters can only shrink the results. |
| Session.SearchIgnoresCase | js/app.js:844 | Upper- and lower-case queries give the same results. |
| Session.AppState.constructor | js/app.js:23-27 | The state starts with no combatants and the given party, active list, log and pool. |
| Session.AppState.AddLog | js/app.js:46-54 | The log becomes `Logged` of the old log, and no other field changes. |
| Session.AppState.ClearLog | js/app.js:56-62 | On confirmation the log is emptied, and nothing else changes. |
| Session.AppState.ResetCombat | js/app.js:74-80 | On confirmation only player combatants remain, and the reset is logged. |
| Session.AppState.AddPG | js/app.js:89-109 | A blank or cancelled name changes nothing. Otherwise a level-1 PG with the trimmed name is appended, made active and logged. |
| Session.AppState.TogglePGActive | js/app.js:112-127 | The active list becomes `Toggled`. Deactivation also removes that PG's player entry from the fight. Either way it is logged. |
| Session.AppState.RemovePG | js/app.js:261-273 | A confirmed removal of an existing PG filters it out of the party, the active list and the player entries. Otherwise nothing changes. |
| Session.AppState.GrantShare | js/app.js:195-200 | The `forEach` loop leaves the party equal to `Granted`. |
| Session.AppState.AssignXP | js/app.js:215-242 | Without active PGs or XP nothing changes. Otherwise every active PG is granted the floor share, the pool becomes 0, and the award is logged. |
| Session.AppState.AssignXpToSelected | js/app.js:179-212 | An empty selection changes nothing. Otherwise the selected PGs are granted the floor share and the pool becomes 0. |
| Session.AppState.UpdateHpGlobal | js/app.js:424-452 | An unknown id changes nothing. Otherwise: a player's new HP is mirrored into the party; a monster still standing keeps its new HP; a monster at 0 leaves the fight, and its reward is added to the pool and logged. |
| Session.AppState.AddCheckedPGsToCombat | js/app.js:372-406 | The fight becomes `Merged` over the checked ids, and the number added is logged when it is positive. |
| Session.AppState.UpdateInit | js/app.js:530-537 | The entry's initiative becomes `parseInt(val)`, or 0 when that is `NaN` or 0, and the fight is re-sorted into a descending permutation of the updated list. |

## Left out

- DOM rendering, modals and tab switching are not modelled. This covers `renderCombat`, `renderParty`, `renderDashboard`, `renderLog`, `showDetail`, `selectPGsForXP`, `addSelectedPGsToCombat` and `switchTab`. Their `prompt`, `confirm` and checkbox results are parameters of the modelled handlers.
- `localStorage` persistence is not modelled. This covers `saveSession`, `saveParty`, the reading of the initial state (js/app.js:23-27), and the `localStorage.setItem` calls in each handler.
- `loadFiles` and `init` are not modelled; they fetch and parse the JSON databases.
- `updatePGStat` is not modelled; it is a field editor with no promise beyond the write itself.
- A PG's stats other than `con`, and `baseAc`, are not modelled; no modelled operation reads them.
- Randomness is not modelled. This covers `calculateRandomHp`, `addToCombat` (random HP and a floating-point XP adjustment) and the d20 roll in `rollGroupInitiative`. Only that function's sort is modelled, as `SortByInitiative`.
- The clock is not modelled. `Date.now()` ids and log times are parameters.
- Floating-point arithmetic is not modelled. Numbers are unbounded integers.
- Log lines are structured events, not the Italian message text.
- Session.AppState.constructor: requires a stored log of at most 20 entries. `addLog` drops only one entry per call, so a longer stored log would stay over the cap.
- Session.SortByInitiative: specified as a stable descending sort, which is what `Array.prototype.sort` guarantees. The engine's own sorting algorithm is not modelled.
- Session.JoinCombat: keeps only the modelled fields of the spread PG record.
- JsText.ParseInt: decimal only. The `0x` hexadecimal prefix that `parseInt` also accepts is not modelled.
- JsText.Trim: does not treat U+1680, U+2000 to U+200A, U+202F, U+205F and U+3000 as whitespace, which `trim` also removes.
- JsText.ParseInt: skips leading whitespace with the same `IsWhitespace`, so the Unicode spaces that `Trim` misses are not skipped either.
- JsText.ToLower: maps ASCII letters only.
- Session.CrRewardFromTable: does not model prototype keys such as `constructor`, which `xpTable[cr]` would also find.
- The real network, the Cache API and URL parsing are not modelled. The network is an oracle argument, the stores are maps, and a request carries its path.
- The `?v=` query and `cache: 'no-store'` of `checkForUpdates` are not modelled; they only change what the network oracle answers.
- Service-worker lifecycle calls are not modelled. This covers `skipWaiting`, `clients.claim`, `waitUntil`, the `SKIP_WAITING` message and `console` logging.
- Concurrency is not modelled:
  - The detached revalidation after a database hit is a separate following step.
  - The parallel preload (`Promise.all`) is sequential, which gives the same result because every asset touches only its own key.
- Session.Search: strings are sequences of Unicode code points, so a character outside the Basic Multilingual Plane counts once toward the 2-character minimum, where `q.length` counts its two UTF-16 code units.
- `cache.put` and `cache.addAll` are modelled as rejecting only a 206 answer. Their other rejections (a storage quota exceeded, a `Vary: *` header) are not modelled; such an answer is stored.
- ServiceWorker.CacheAgent.MatchAny: returns a response held by some cache under the URL, without fixing which cache `caches.match` consults first.
- A message without a reply port is not modelled; the reply is returned.
- The rejection of `cache.addAll` is caught and only logged (sw.js:54-56). In the model only the current cache is opened (created empty if absent), no entry is stored, and the log message is left out.
