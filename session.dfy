/** The session state of js/app.js: the party of player characters (PGs),
    the ids active in this session, the combatants of the current fight,
    the XP pool and a capped log, with the handlers that update them.

    Dialogs (`prompt`, `confirm`, the checked boxes of a modal), the clock
    and the ids drawn from it are parameters; rendering and persistence are
    not modelled. A numeric field that is absent from a record is 0, so
    that JavaScript's `x || d` on it is `Or(x, d)`. */
module Session {
  import opened Wrappers
  import opened JsText
  import opened Seqs
  import Rules35

  // ---------------------------------------------------------------- values

  /** `x || d` on a number. */
  function Or(x: int, d: int): int {
    if x != 0 then x else d
  }

  /** `getMod`: the ability modifier, `Math.floor((score - 10) / 2)`. */
  function GetMod(score: int): int {
    (score - 10) / 2
  }

  /** The application's `getMod` and the rules module's `getModifier` are
      the same function. */
  lemma GetModIsGetModifier(score: int)
    ensures GetMod(score) == Rules35.GetModifier(score)
  {
    var m := Rules35.GetModifier(score);
    assert 2 * m <= score - 10 < 2 * m + 2;
  }

  /** A player character; of its ability scores only constitution is read
      by the core. */
  datatype PG = PG(id: int, name: string, level: int, con: int, hpMax: int, currentHp: int, xp: int)

  /** One entry of the initiative list: a monster, or a PG copied into the
      fight (`instanceId` is then the PG's id). */
  datatype Combatant = Combatant(
    instanceId: int, isPlayer: bool, name: string, level: int, con: int,
    currentHp: int, maxHp: int, hpMax: int, hp: int,
    initiative: int, rewardXP: int, cr: string)

  /** What a log line records; the line's wording is not modelled. */
  datatype LogEvent =
    | CombatReset
    | PGCreated(name: string)
    | PGActivated(name: string)
    | PGDeactivated(name: string)
    | XpSharedToSelected(share: int, names: seq<string>)
    | XpSharedToActive(share: int, names: seq<string>)
    | PGRemoved(name: string)
    | PGsJoinedCombat(count: int)
    | Defeated(name: string, reward: int)

  /** A log line: the `H:MM` time stamp and the event. */
  datatype LogEntry = LogEntry(time: string, event: LogEvent)

  const LogCap: nat := 20

  /** The record `addPG` creates: level 1, every ability 10, 10 hit points,
      no XP. */
  function NewPG(id: int, name: string): PG {
    PG(id, name, 1, 10, 10, 10, 0)
  }

  // ------------------------------------------------------------------ log

  /** `addLog`: `unshift` the entry, then `pop` once if the log is now longer
      than the cap. */
  function Logged(log: seq<LogEntry>, e: LogEntry): (r: seq<LogEntry>)
    ensures |r| == if |log| < LogCap then |log| + 1 else |log|
    ensures r[0] == e && r[1..] == log[..|r| - 1]
  {
    var l := [e] + log;
    if |l| > LogCap then l[..|l| - 1] else l
  }

  /** The log after adding the entries `es`, oldest first. */
  function LoggedAll(log: seq<LogEntry>, es: seq<LogEntry>): seq<LogEntry>
    decreases |es|
  {
    if es == [] then log else Logged(LoggedAll(log, es[..|es| - 1]), es[|es| - 1])
  }

  /** `s` newest first. */
  function Reversed<T>(s: seq<T>): (r: seq<T>)
    ensures |r| == |s|
    decreases |s|
  {
    if s == [] then [] else [s[|s| - 1]] + Reversed(s[..|s| - 1])
  }

  /** Entry `i` of the newest-first history is the `i`-th from the end. */
  lemma {:induction false} ReversedAt<T>(s: seq<T>)
    ensures forall i :: 0 <= i < |s| ==> Reversed(s)[i] == s[|s| - 1 - i]
    decreases |s|
  {
    if s != [] {
      ReversedAt(s[..|s| - 1]);
    }
  }

  function Min(a: int, b: int): int {
    if a < b then a else b
  }

  /** However many entries are added, a log within the cap holds the newest
      `LogCap` lines, newest first, and older lines keep their order. */
  lemma {:induction false} LogKeepsNewest(log: seq<LogEntry>, es: seq<LogEntry>)
    requires |log| <= LogCap
    ensures LoggedAll(log, es) == (Reversed(es) + log)[..Min(|es| + |log|, LogCap)]
  {
    if es != [] {
      var front := es[..|es| - 1];
      var e := es[|es| - 1];
      LogKeepsNewest(log, front);
      var full := Reversed(front) + log;
      LoggedPrefix(full, e, Min(|front| + |log|, LogCap));
      assert Reversed(es) + log == [e] + full;
    }
  }

  /** Adding to a log that is the first `n` lines of `full` gives the first
      lines of `[e] + full`, up to the cap. */
  lemma LoggedPrefix(full: seq<LogEntry>, e: LogEntry, n: nat)
    requires n <= LogCap && n <= |full| && (n < LogCap ==> n == |full|)
    ensures Logged(full[..n], e) == ([e] + full)[..Min(|full| + 1, LogCap)]
  {
    var r := Logged(full[..n], e);
    var m := Min(|full| + 1, LogCap);
    assert |r| == m;
    assert r == [e] + r[1..];
    assert r[1..] == full[..m - 1];
    assert ([e] + full)[..m] == [e] + full[..m - 1];
  }

  // ------------------------------------------------------------- lookups

  function HasId(id: int): PG -> bool {
    (p: PG) => p.id == id
  }

  /** `party.find(p => p.id === id)`. */
  function FindPG(party: seq<PG>, id: int): (r: Option<PG>)
    ensures r.Some? ==> r.value in party && r.value.id == id
    ensures r.None? <==> forall p :: p in party ==> p.id != id
  {
    match FindIndex(party, HasId(id))
    case None => None
    case Some(k) => Some(party[k])
  }

  /** The PG `find` returns is the first one with the id. */
  lemma FindPGFirst(party: seq<PG>, id: int)
    ensures FindPG(party, id).Some? ==>
      exists k :: 0 <= k < |party| && party[k] == FindPG(party, id).value && forall j :: 0 <= j < k ==> party[j].id != id
  {
  }

  /** `pg?.name || 'Sconosciuto'`. */
  function DisplayName(pg: Option<PG>): string {
    if pg.Some? && pg.value.name != "" then pg.value.name else "Sconosciuto"
  }

  /** `party.find(p => p.id === id)?.name`, with a missing PG shown by
      `join` as the empty string. */
  function NameOf(party: seq<PG>, id: int): (n: string)
    ensures (forall p :: p in party ==> p.id != id) ==> n == ""
    ensures (exists p :: p in party && p.id == id) ==>
      exists k :: 0 <= k < |party| && party[k].id == id && party[k].name == n && forall j :: 0 <= j < k ==> party[j].id != id
  {
    FindPGFirst(party, id);
    match FindPG(party, id)
    case None => ""
    case Some(p) => p.name
  }

  /** `ids.map(id => party.find(p => p.id === id)?.name)`. */
  function Names(party: seq<PG>, ids: seq<int>): (r: seq<string>)
    ensures |r| == |ids|
    ensures forall k :: 0 <= k < |ids| ==> r[k] == NameOf(party, ids[k])
  {
    if ids == [] then [] else [NameOf(party, ids[0])] + Names(party, ids[1..])
  }

  function IsPlayer(c: Combatant): bool {
    c.isPlayer
  }

  function PlayerWith(id: int): Combatant -> bool {
    (c: Combatant) => c.isPlayer && c.instanceId == id
  }

  function NotPlayerWith(id: int): Combatant -> bool {
    (c: Combatant) => !(c.isPlayer && c.instanceId == id)
  }

  function WithInstance(id: int): Combatant -> bool {
    (c: Combatant) => c.instanceId == id
  }

  function OtherInstance(id: int): Combatant -> bool {
    (c: Combatant) => c.instanceId != id
  }

  function OtherPG(id: int): PG -> bool {
    (p: PG) => p.id != id
  }

  function OtherId(id: int): int -> bool {
    (x: int) => x != id
  }

  /** Dropping one player's entries from the fight removes exactly the
      entries with that id and `isPlayer`, and keeps every other entry as
      often as it occurred. */
  lemma DropPlayer(cs: seq<Combatant>, id: int, c: Combatant)
    ensures !(PlayerWith(id)(c)) ==> multiset(Filter(cs, NotPlayerWith(id)))[c] == multiset(cs)[c]
    ensures PlayerWith(id)(c) ==> c !in Filter(cs, NotPlayerWith(id))
  {
    FilterCount(cs, NotPlayerWith(id), c);
  }

  // ------------------------------------------------------------- toggling

  /** `togglePGActive` on the id list: push an absent id, splice out the
      first occurrence of a present one. */
  function Toggled(active: seq<int>, id: int): (r: seq<int>)
    ensures id !in active ==> r == active + [id]
    ensures id in active ==> |r| == |active| - 1 && multiset(r) == multiset(active) - multiset{id}
  {
    var i := IndexOf(active, id);
    if i == -1 then active + [id] else RemoveAt(active, i)
  }

  /** Deactivation splices out the first occurrence of the id and keeps the
      ids before and after it in order. */
  lemma ToggledRemovesFirst(active: seq<int>, id: int)
    ensures id in active ==>
      exists i :: 0 <= i < |active| && active[i] == id && id !in active[..i]
        && Toggled(active, id) == active[..i] + active[i + 1..]
  {
    var i := IndexOf(active, id);
    if i != -1 {
      assert RemoveAt(active, i) == active[..i] + active[i + 1..];
    }
  }

  /** Toggling an inactive PG twice restores the list. */
  lemma ToggleTwice(active: seq<int>, id: int)
    requires id !in active
    ensures Toggled(Toggled(active, id), id) == active
  {
    var once := active + [id];
    assert once[|active|] == id;
    assert forall j :: 0 <= j < |active| ==> once[j] == active[j] && active[j] != id;
    assert IndexOf(once, id) == |active|;
    assert once[..|active|] == active;
  }

  /** A list without repeats stays without repeats, and toggling flips
      membership. */
  lemma ToggleFlips(active: seq<int>, id: int)
    requires Distinct(active)
    ensures Distinct(Toggled(active, id))
    ensures id in Toggled(active, id) <==> id !in active
  {
    var r := Toggled(active, id);
    if id in active {
      var i := IndexOf(active, id);
      assert multiset(active)[id] == 1 by {
        assert active == active[..i] + [id] + active[i + 1..];
        assert id !in active[..i];
        forall k | i < k < |active| ensures active[k] != id {
        }
        assert id !in active[i + 1..];
        assert multiset(active[..i])[id] == 0 && multiset(active[i + 1..])[id] == 0;
      }
      assert multiset(r)[id] == 0;
    } else {
      assert r[|active|] == id;
    }
  }

  // ----------------------------------------------------------------- XP

  /** One turn of the XP `forEach`: the first PG with this id gains `share`. */
  function GrantOne(party: seq<PG>, id: int, share: int): seq<PG> {
    match FindIndex(party, HasId(id))
    case None => party
    case Some(k) => party[k := party[k].(xp := party[k].xp + share)]
  }

  /** The party after the `forEach` over `ids`. */
  function Granted(party: seq<PG>, ids: seq<int>, share: int): seq<PG>
    decreases |ids|
  {
    if ids == [] then party
    else GrantOne(Granted(party, ids[..|ids| - 1], share), ids[|ids| - 1], share)
  }

  predicate FirstWithId(party: seq<PG>, k: int)
    requires 0 <= k < |party|
  {
    forall j :: 0 <= j < k ==> party[j].id != party[k].id
  }

  lemma GrantOneAt(party: seq<PG>, id: int, share: int)
    ensures |GrantOne(party, id, share)| == |party|
    ensures forall k :: 0 <= k < |party| ==>
      GrantOne(party, id, share)[k]
        == party[k].(xp := party[k].xp + if FirstWithId(party, k) && party[k].id == id then share else 0)
  {
    var r := GrantOne(party, id, share);
    match FindIndex(party, HasId(id))
    case None =>
    case Some(f) =>
      forall k | 0 <= k < |party| && k != f && party[k].id == id ensures !FirstWithId(party, k) {
        assert f < k;
        assert party[f].id == party[k].id;
      }
  }

  /** What PG `k` gains from `share` per occurrence of its id in `ids`:
      only the first PG with an id is ever found. */
  function Gain(party: seq<PG>, k: int, ids: seq<int>, share: int): int
    requires 0 <= k < |party|
  {
    if FirstWithId(party, k) then share * multiset(ids)[party[k].id] else 0
  }

  /** The two parties list the same ids in the same order. */
  predicate SameIds(a: seq<PG>, b: seq<PG>) {
    |a| == |b| && forall j :: 0 <= j < |a| ==> a[j].id == b[j].id
  }

  lemma GainStep(party: seq<PG>, g: seq<PG>, front: seq<int>, id: int, share: int, k: int)
    requires SameIds(party, g) && 0 <= k < |party|
    ensures Gain(party, k, front + [id], share)
         == Gain(party, k, front, share) + if FirstWithId(g, k) && g[k].id == id then share else 0
  {
    assert FirstWithId(g, k) == FirstWithId(party, k);
    var c := multiset(front)[party[k].id];
    assert multiset(front + [id])[party[k].id] == c + if party[k].id == id then 1 else 0;
    assert share * (c + 1) == share * c + share;
  }

  /** Every PG gains `share` once per occurrence of its id in `ids`, when it
      is the first PG with that id; nothing else about the party changes. */
  lemma {:induction false} GrantedXp(party: seq<PG>, ids: seq<int>, share: int)
    ensures SameIds(party, Granted(party, ids, share))
    ensures forall k :: 0 <= k < |party| ==>
      Granted(party, ids, share)[k] == party[k].(xp := party[k].xp + Gain(party, k, ids, share))
  {
    if ids == [] {
      forall k | 0 <= k < |party| ensures Gain(party, k, ids, share) == 0 {
        assert multiset(ids)[party[k].id] == 0;
      }
    } else {
      var front := ids[..|ids| - 1];
      var id := ids[|ids| - 1];
      assert ids == front + [id];
      GrantedXp(party, front, share);
      var g := Granted(party, front, share);
      GrantOneAt(g, id, share);
      assert Granted(party, ids, share) == GrantOne(g, id, share);
      forall k | 0 <= k < |party|
        ensures Granted(party, ids, share)[k] == party[k].(xp := party[k].xp + Gain(party, k, ids, share))
      {
        GainStep(party, g, front, id, share, k);
      }
    }
  }

  /** The sum of the party's XP. */
  function SumXp(party: seq<PG>): int
    decreases |party|
  {
    if party == [] then 0 else party[0].xp + SumXp(party[1..])
  }

  lemma {:induction false} SumXpUpdate(party: seq<PG>, k: nat, xp: int)
    requires k < |party|
    ensures SumXp(party[k := party[k].(xp := xp)]) == SumXp(party) - party[k].xp + xp
  {
    if k > 0 {
      SumXpUpdate(party[1..], k - 1, xp);
      assert party[k := party[k].(xp := xp)][1..] == party[1..][k - 1 := party[k].(xp := xp)];
    }
  }

  /** Some PG of the party has this id. */
  predicate Known(party: seq<PG>, id: int) {
    FindPG(party, id).Some?
  }

  /** How many of `ids` name a PG of the party. */
  function Found(party: seq<PG>, ids: seq<int>): (n: nat)
    ensures n <= |ids|
    decreases |ids|
  {
    if ids == [] then 0
    else Found(party, ids[..|ids| - 1]) + if Known(party, ids[|ids| - 1]) then 1 else 0
  }

  lemma GrantOneSum(party: seq<PG>, id: int, share: int)
    ensures SumXp(GrantOne(party, id, share)) == SumXp(party) + if Known(party, id) then share else 0
  {
    match FindIndex(party, HasId(id))
    case None =>
    case Some(k) => SumXpUpdate(party, k, party[k].xp + share);
  }

  /** Parties with the same ids know the same ids. */
  lemma KnownSameIds(a: seq<PG>, b: seq<PG>, x: int)
    requires SameIds(a, b)
    ensures Known(a, x) == Known(b, x)
  {
    if Known(a, x) {
      var p := FindPG(a, x).value;
      var k :| 0 <= k < |a| && a[k] == p;
      assert b[k].id == x;
      assert b[k] in b;
    }
    if Known(b, x) {
      var p := FindPG(b, x).value;
      var k :| 0 <= k < |b| && b[k] == p;
      assert a[k].id == x;
      assert a[k] in a;
    }
  }

  /** XP handed out: `share` for every id that names a PG of the party. */
  lemma {:induction false} GrantedSum(party: seq<PG>, ids: seq<int>, share: int)
    ensures SumXp(Granted(party, ids, share)) == SumXp(party) + share * Found(party, ids)
  {
    if ids != [] {
      var front := ids[..|ids| - 1];
      var id := ids[|ids| - 1];
      assert ids == front + [id];
      GrantedSum(party, front, share);
      GrantedXp(party, front, share);
      var g := Granted(party, front, share);
      assert Granted(party, ids, share) == GrantOne(g, id, share);
      GrantedSumStep(party, g, front, id, share);
    }
  }

  lemma GrantedSumStep(party: seq<PG>, g: seq<PG>, front: seq<int>, id: int, share: int)
    requires SameIds(party, g)
    requires SumXp(g) == SumXp(party) + share * Found(party, front)
    ensures SumXp(GrantOne(g, id, share)) == SumXp(party) + share * Found(party, front + [id])
  {
    GrantOneSum(g, id, share);
    KnownSameIds(party, g, id);
    assert (front + [id])[..|front|] == front;
    MulSucc(share, Found(party, front));
  }

  lemma MulSucc(a: int, n: int)
    ensures a * (n + 1) == a * n + a
  {
  }

  /** Floor division of a non-negative pool: `found` shares of it, for at
      most `n` takers, fit in the pool. */
  lemma SharesFit(pool: int, n: int, found: int)
    requires pool >= 0 && 0 <= found <= n && n > 0
    ensures 0 <= (pool / n) * found <= pool
  {
    var q := pool / n;
    assert q * n <= pool;
    assert q * n - q * found == q * (n - found);
    assert q * (n - found) >= 0;
  }

  /** `Math.floor(pool / n)`: the largest share that `n` takers can each
      get out of the pool. */
  function Share(pool: int, n: int): (share: int)
    requires n > 0
    ensures share * n <= pool < share * n + n
  {
    pool / n
  }

  /** Sharing a non-negative pool among `ids` never hands out more than the
      pool, whichever of the ids name a PG. */
  lemma SharedWithinPool(party: seq<PG>, ids: seq<int>, pool: int)
    requires pool >= 0 && |ids| > 0
    ensures SumXp(party) <= SumXp(Granted(party, ids, Share(pool, |ids|))) <= SumXp(party) + pool
  {
    GrantedSum(party, ids, Share(pool, |ids|));
    SharesFit(pool, |ids|, Found(party, ids));
  }

  // ------------------------------------------------------------ hit points

  /** `updateHpGlobal`'s starting value: `currentHp`, or when that is 0 the
      default maximum (`hpMax || 10` for a player, `maxHp || hp || 10` for a
      monster). */
  function StartingHp(c: Combatant): int {
    Or(c.currentHp, if c.isPlayer then Or(c.hpMax, 10) else Or(c.maxHp, Or(c.hp, 10)))
  }

  /** The new hit points, clamped at 0. */
  function NewHp(c: Combatant, amount: int): (h: int)
    ensures h >= 0
    ensures h == 0 <==> StartingHp(c) + amount <= 0
    ensures h > 0 ==> h == StartingHp(c) + amount
  {
    var h := StartingHp(c) + amount;
    if h < 0 then 0 else h
  }

  /** As written, 0 hit points read as "not set": a player brought to 0 and
      then hit again starts over from the maximum. */
  lemma PlayerAtZeroRestarts(c: Combatant, amount: int)
    requires c.isPlayer && c.currentHp == 0 && c.hpMax > 0 && c.hpMax + amount > 0
    ensures NewHp(c, amount) == c.hpMax + amount
  {
  }

  /** The quick XP table, by challenge rating. */
  const XpTable: map<string, int> := map[
    "1/8" := 25, "1/4" := 50, "1/2" := 100, "1" := 200, "2" := 450,
    "3" := 700, "5" := 1100, "10" := 5900, "20" := 25000]

  /** `xpTable[cr] || (parseInt(cr) * 500 || 0)`: the table, else 500 per
      leading whole number of the rating, else nothing. */
  function CrReward(cr: string): int {
    if cr in XpTable then XpTable[cr]
    else match ParseInt(cr)
      case None => 0
      case Some(n) => n * 500
  }

  /** The reward for a defeated monster: its own `rewardXP`, else by rating. */
  function Reward(c: Combatant): int {
    Or(c.rewardXP, CrReward(c.cr))
  }

  /** A monster without its own `rewardXP` is worth its rating: the table
      value for a listed rating, else 500 per point of a numeric one. */
  lemma RewardFromRating(c: Combatant, n: nat)
    requires c.rewardXP == 0
    ensures c.cr in XpTable ==> Reward(c) == XpTable[c.cr]
    ensures c.cr == Decimal(n) && c.cr !in XpTable ==> Reward(c) == n * 500
  {
    if c.cr == Decimal(n) && c.cr !in XpTable {
      CrRewardOutsideTable(n);
    }
  }

  /** Ratings in the table read from it. */
  lemma CrRewardFromTable()
    ensures forall cr :: cr in XpTable ==> CrReward(cr) == XpTable[cr]
    ensures CrReward("1/2") == 100 && CrReward("20") == 25000
  {
  }

  /** A rating outside the table is worth 500 per leading whole number: "4"
      gives 2000. */
  lemma CrRewardOutsideTable(n: nat)
    requires Decimal(n) !in XpTable
    ensures CrReward(Decimal(n)) == n * 500
  {
    ParseIntOfDecimal(n, "");
    assert Decimal(n) + "" == Decimal(n);
  }

  /** A rating that is not a number and not in the table is worth nothing. */
  lemma CrRewardOfNonNumber(cr: string)
    requires cr !in XpTable && cr != [] && !IsDigit(cr[0]) && !IsWhitespace(cr[0]) && cr[0] != '-' && cr[0] != '+'
    ensures CrReward(cr) == 0
  {
    ParseIntOfNonNumber(cr);
  }

  /** `pg.currentHp = h` on the first PG with this id, if any. */
  function MirrorHp(party: seq<PG>, id: int, h: int): (r: seq<PG>)
    ensures |r| == |party|
    ensures FindPG(party, id).Some? ==> FindPG(r, id) == Some(FindPG(party, id).value.(currentHp := h))
    ensures forall k :: 0 <= k < |party| && party[k].id != id ==> r[k] == party[k]
    ensures forall k :: 0 <= k < |party| ==>
      r[k] == if party[k].id == id && FirstWithId(party, k) then party[k].(currentHp := h) else party[k]
  {
    match FindIndex(party, HasId(id))
    case None => party
    case Some(k) =>
      var r := party[k := party[k].(currentHp := h)];
      assert FindIndex(r, HasId(id)) == Some(k) by {
        FindFirstIsFirst(r, HasId(id), k);
      }
      r
  }

  /** `find` returns the first index that satisfies the predicate. */
  lemma FindFirstIsFirst<T>(s: seq<T>, p: T -> bool, k: nat)
    requires k < |s| && p(s[k]) && forall j :: 0 <= j < k ==> !p(s[j])
    ensures FindIndex(s, p) == Some(k)
  {
    match FindIndex(s, p)
    case None =>
    case Some(f) =>
  }

  /** A defeated monster leaves the fight together with every entry sharing
      its id; every other entry stays, as often as it occurred. */
  lemma DefeatedLeaves(cs: seq<Combatant>, k: nat, h: int, c: Combatant)
    requires k < |cs|
    ensures Filter(cs[k := cs[k].(currentHp := h)], OtherInstance(cs[k].instanceId))
         == Filter(cs, OtherInstance(cs[k].instanceId))
    ensures c.instanceId != cs[k].instanceId ==>
      multiset(Filter(cs, OtherInstance(cs[k].instanceId)))[c] == multiset(cs)[c]
    ensures c.instanceId == cs[k].instanceId ==> c !in Filter(cs, OtherInstance(cs[k].instanceId))
  {
    FilterDropsUpdated(cs, k, cs[k].(currentHp := h), OtherInstance(cs[k].instanceId));
    FilterCount(cs, OtherInstance(cs[k].instanceId), c);
  }

  // --------------------------------------------------------- joining combat

  /** The entry `addCheckedPGsToCombat` pushes for a PG. */
  function JoinCombat(pg: PG): (c: Combatant)
    ensures c.isPlayer && c.instanceId == pg.id && c.name == pg.name && c.initiative == 0
    ensures c.maxHp == c.hpMax == pg.hpMax + pg.level * Rules35.GetModifier(pg.con)
    ensures c.currentHp == if pg.currentHp != 0 then pg.currentHp else c.maxHp
  {
    GetModIsGetModifier(pg.con);
    var maxHp := pg.hpMax + pg.level * GetMod(pg.con);
    Combatant(pg.id, true, pg.name, pg.level, pg.con, Or(pg.currentHp, maxHp), maxHp, maxHp, 0, 0, 0, "")
  }

  /** Some entry is this player's. */
  predicate HasPlayer(cs: seq<Combatant>, id: int) {
    FindIndex(cs, PlayerWith(id)).Some?
  }

  /** The fight after the merge loop over the checked ids. */
  function Merged(cs: seq<Combatant>, party: seq<PG>, ids: seq<int>): seq<Combatant>
    decreases |ids|
  {
    if ids == [] then cs
    else
      var m := Merged(cs, party, ids[..|ids| - 1]);
      var id := ids[|ids| - 1];
      match FindPG(party, id)
      case None => m
      case Some(pg) => if HasPlayer(m, id) then m else m + [JoinCombat(pg)]
  }

  /** No two player entries share an id. */
  predicate PlayersUnique(cs: seq<Combatant>) {
    forall i, j :: 0 <= i < j < |cs| && cs[i].isPlayer && cs[j].isPlayer ==> cs[i].instanceId != cs[j].instanceId
  }

  /** The merge only appends, and what it appends is a PG of the party that
      was checked. */
  lemma {:induction false} MergedAppends(cs: seq<Combatant>, party: seq<PG>, ids: seq<int>)
    ensures |Merged(cs, party, ids)| >= |cs| && Merged(cs, party, ids)[..|cs|] == cs
    ensures forall k :: |cs| <= k < |Merged(cs, party, ids)| ==>
      exists pg :: pg in party && pg.id in ids && Merged(cs, party, ids)[k] == JoinCombat(pg)
  {
    if ids != [] {
      var front := ids[..|ids| - 1];
      MergedAppends(cs, party, front);
      var m := Merged(cs, party, front);
      assert forall x :: x in front ==> x in ids;
      var r := Merged(cs, party, ids);
      var id := ids[|ids| - 1];
      assert id in ids;
      if |r| > |m| {
        var pg := FindPG(party, id).value;
        assert pg in party && pg.id == id;
        assert r == m + [JoinCombat(pg)];
        assert r[..|m|] == m;
        assert r[..|cs|] == m[..|cs|];
        forall k | |cs| <= k < |r|
          ensures exists pg :: pg in party && pg.id in ids && r[k] == JoinCombat(pg)
        {
          if k < |m| {
            assert |cs| <= k < |Merged(cs, party, front)|;
            assert exists q :: q in party && q.id in front && Merged(cs, party, front)[k] == JoinCombat(q);
            var q :| q in party && q.id in front && m[k] == JoinCombat(q);
            assert r[k] == m[k] && q.id in ids;
          } else {
            assert r[k] == JoinCombat(pg);
          }
        }
      } else {
        assert r == m;
      }
    }
  }

  /** The merge never adds a PG that is already in the fight as a player. */
  lemma {:induction false} MergedKeepsPlayersUnique(cs: seq<Combatant>, party: seq<PG>, ids: seq<int>)
    requires PlayersUnique(cs)
    ensures PlayersUnique(Merged(cs, party, ids))
  {
    if ids != [] {
      var front := ids[..|ids| - 1];
      var id := ids[|ids| - 1];
      MergedKeepsPlayersUnique(cs, party, front);
      var m := Merged(cs, party, front);
      match FindPG(party, id)
      case None =>
      case Some(pg) =>
        if !HasPlayer(m, id) {
          var r := m + [JoinCombat(pg)];
          forall i, j | 0 <= i < j < |r| && r[i].isPlayer && r[j].isPlayer
            ensures r[i].instanceId != r[j].instanceId
          {
            if j == |m| {
              assert !PlayerWith(id)(m[i]);
            } else {
              assert r[i] == m[i] && r[j] == m[j];
            }
          }
        }
    }
  }

  /** Every checked id that names a PG of the party ends up in the fight as a
      player. */
  lemma {:induction false} MergedCovers(cs: seq<Combatant>, party: seq<PG>, ids: seq<int>, id: int)
    requires id in ids && FindPG(party, id).Some?
    ensures HasPlayer(Merged(cs, party, ids), id)
  {
    var front := ids[..|ids| - 1];
    var last := ids[|ids| - 1];
    var m := Merged(cs, party, front);
    var r := Merged(cs, party, ids);
    MergedAppends(m, party, [last]);
    assert Merged(m, party, [last]) == r by {
      assert [last][..0] == [];
    }
    assert r[..|m|] == m;
    if id == last {
      if !HasPlayer(m, id) {
        var pg := FindPG(party, id).value;
        assert r == m + [JoinCombat(pg)];
        assert PlayerWith(id)(r[|m|]);
      } else {
        var k := FindIndex(m, PlayerWith(id)).value;
        assert PlayerWith(id)(r[k]);
      }
    } else {
      assert id in front by {
        assert ids == front + [last];
      }
      MergedCovers(cs, party, front, id);
      var k := FindIndex(m, PlayerWith(id)).value;
      assert PlayerWith(id)(r[k]);
    }
  }

  // ------------------------------------------------------------ initiative

  /** `parseInt(val) || 0`. */
  function InitiativeOf(val: string): int {
    ParseInt(val).GetOr(0)
  }

  /** The initiative typed as a whole number, with or without a minus sign
      and followed by anything that is not a digit, is that number; text
      that is not a number gives 0. */
  lemma InitiativeOfNumber(n: nat, rest: string, other: string)
    requires rest == [] || !IsDigit(rest[0])
    requires other != [] && !IsDigit(other[0]) && !IsWhitespace(other[0]) && other[0] != '-' && other[0] != '+'
    ensures InitiativeOf(Decimal(n) + rest) == n
    ensures InitiativeOf("-" + Decimal(n) + rest) == -(n as int)
    ensures InitiativeOf(other) == 0
  {
    ParseIntOfDecimal(n, rest);
    ParseIntOfNegativeDecimal(n, rest);
    ParseIntOfNonNumber(other);
  }

  predicate Descending(s: seq<Combatant>) {
    forall i, j :: 0 <= i < j < |s| ==> s[i].initiative >= s[j].initiative
  }

  /** Insert `x` before the first entry it does not rank below. */
  function InsertByInitiative(x: Combatant, s: seq<Combatant>): (r: seq<Combatant>)
    requires Descending(s)
    ensures Descending(r)
    ensures multiset(r) == multiset(s) + multiset{x}
    decreases |s|
  {
    if s == [] || s[0].initiative <= x.initiative then
      assert forall y :: y in s ==> y.initiative <= x.initiative by {
        forall y | y in s ensures y.initiative <= x.initiative {
          var j :| 0 <= j < |s| && s[j] == y;
          assert s[0].initiative >= s[j].initiative;
        }
      }
      [x] + s
    else
      var tail := s[1..];
      var rest := InsertByInitiative(x, tail);
      assert s == [s[0]] + tail;
      RanksBelow(s, x, rest);
      [s[0]] + rest
  }

  /** Helper for the step of `InsertByInitiative` past a higher entry. */
  lemma RanksBelow(s: seq<Combatant>, x: Combatant, rest: seq<Combatant>)
    requires |s| > 0 && Descending(s) && Descending(rest) && x.initiative < s[0].initiative
    requires multiset(rest) == multiset(s[1..]) + multiset{x}
    ensures Descending([s[0]] + rest)
  {
    forall y | y in rest ensures y.initiative <= s[0].initiative {
      assert y in multiset(rest);
      if y != x {
        assert y in multiset(s[1..]);
        var j :| 0 <= j < |s[1..]| && s[1..][j] == y;
        assert s[j + 1] == y;
      }
    }
    var r := [s[0]] + rest;
    forall i, j | 0 <= i < j < |r| ensures r[i].initiative >= r[j].initiative {
      if i == 0 {
        assert r[j] == rest[j - 1];
        assert r[j] in rest;
      } else {
        assert r[i] == rest[i - 1] && r[j] == rest[j - 1];
      }
    }
  }

  /** `combatants.sort((a, b) => b.initiative - a.initiative)`: descending
      initiative; the sort is stable, so ties keep their order. */
  function SortByInitiative(s: seq<Combatant>): (r: seq<Combatant>)
    ensures Descending(r)
    ensures multiset(r) == multiset(s)
    decreases |s|
  {
    if s == [] then []
    else
      assert s == [s[0]] + s[1..];
      InsertByInitiative(s[0], SortByInitiative(s[1..]))
  }

  function HasInitiative(v: int): Combatant -> bool {
    (c: Combatant) => c.initiative == v
  }

  lemma {:induction false} InsertKeepsTies(x: Combatant, s: seq<Combatant>, v: int)
    requires Descending(s)
    ensures Filter(InsertByInitiative(x, s), HasInitiative(v))
         == Filter([x], HasInitiative(v)) + Filter(s, HasInitiative(v))
    decreases |s|
  {
    if s == [] || s[0].initiative <= x.initiative {
      FilterConcat([x], s, HasInitiative(v));
    } else {
      InsertKeepsTies(x, s[1..], v);
      var rest := InsertByInitiative(x, s[1..]);
      assert InsertByInitiative(x, s) == [s[0]] + rest;
      PassHigherKeepsTies(x, s, rest, v);
    }
  }

  /** The step of `InsertKeepsTies` where `x` moves past a higher entry,
      which therefore never ties with it. */
  lemma PassHigherKeepsTies(x: Combatant, s: seq<Combatant>, rest: seq<Combatant>, v: int)
    requires |s| > 0 && x.initiative < s[0].initiative
    requires Filter(rest, HasInitiative(v)) == Filter([x], HasInitiative(v)) + Filter(s[1..], HasInitiative(v))
    ensures Filter([s[0]] + rest, HasInitiative(v)) == Filter([x], HasInitiative(v)) + Filter(s, HasInitiative(v))
  {
    var keep := HasInitiative(v);
    var tail := s[1..];
    FilterConcat([s[0]], rest, keep);
    assert s == [s[0]] + tail;
    FilterConcat([s[0]], tail, keep);
    var fx := Filter([x], keep);
    var f0 := Filter([s[0]], keep);
    assert fx == [] || f0 == [] by {
      assert [x][1..] == [] && [s[0]][1..] == [];
    }
    SwapAroundEmpty(f0, fx, Filter(tail, keep));
  }

  lemma SwapAroundEmpty<T>(a: seq<T>, b: seq<T>, t: seq<T>)
    requires a == [] || b == []
    ensures a + (b + t) == b + (a + t)
  {
    if a == [] {
      assert a + (b + t) == b + t && a + t == t;
    } else {
      assert b + (a + t) == a + t && b + t == t;
    }
  }

  /** The sort is stable: the entries with any one initiative value come out
      in the order they went in. */
  lemma {:induction false} SortKeepsTies(s: seq<Combatant>, v: int)
    ensures Filter(SortByInitiative(s), HasInitiative(v)) == Filter(s, HasInitiative(v))
    decreases |s|
  {
    if s != [] {
      SortKeepsTies(s[1..], v);
      InsertKeepsTies(s[0], SortByInitiative(s[1..]), v);
      assert s == [s[0]] + s[1..];
      FilterConcat([s[0]], s[1..], HasInitiative(v));
    }
  }

  /** `resetCombat` keeps exactly the player entries, each as often as it
      occurred, in their original order (filtering distributes over any
      split of the list), and leaves a players-only fight as it is. */
  lemma ResetCombatKeepsPlayers(cs: seq<Combatant>, more: seq<Combatant>, c: Combatant)
    ensures multiset(Filter(cs, IsPlayer))[c] == if c.isPlayer then multiset(cs)[c] else 0
    ensures Filter(cs + more, IsPlayer) == Filter(cs, IsPlayer) + Filter(more, IsPlayer)
    ensures (forall d :: d in cs ==> d.isPlayer) ==> Filter(cs, IsPlayer) == cs
  {
    FilterCount(cs, IsPlayer, c);
    FilterConcat(cs, more, IsPlayer);
    if forall d :: d in cs ==> d.isPlayer {
      FilterAllKept(cs, IsPlayer);
    }
  }

  /** `removePG` leaves no trace of the id: no PG, no active id, no player
      entry; every other PG, id and entry stays as often as it occurred. */
  lemma RemovedEverywhere(party: seq<PG>, active: seq<int>, cs: seq<Combatant>, id: int, p: PG, x: int, c: Combatant)
    ensures p.id == id ==> p !in Filter(party, OtherPG(id))
    ensures p.id != id ==> multiset(Filter(party, OtherPG(id)))[p] == multiset(party)[p]
    ensures id !in Filter(active, OtherId(id))
    ensures x != id ==> multiset(Filter(active, OtherId(id)))[x] == multiset(active)[x]
    ensures c.isPlayer && c.instanceId == id ==> c !in Filter(cs, NotPlayerWith(id))
    ensures !(c.isPlayer && c.instanceId == id) ==> multiset(Filter(cs, NotPlayerWith(id)))[c] == multiset(cs)[c]
  {
    FilterCount(party, OtherPG(id), p);
    FilterCount(active, OtherId(id), x);
    FilterCount(active, OtherId(id), id);
    DropPlayer(cs, id, c);
  }

  // ---------------------------------------------------------------- search

  /** A catalogue entry, monster or spell, as far as the search reads it. */
  datatype Entry = Entry(name: string, edition: string)

  /** The search predicate: same edition, and the lower-cased name includes
      the lower-cased query. */
  function Matches(q: string, edition: string): Entry -> bool {
    (e: Entry) => e.edition == edition && Contains(ToLower(e.name), q)
  }

  datatype SearchResult = TooShort | Results(monsters: seq<Entry>, spells: seq<Entry>)

  /** `updateSearchResults` without the rendering. */
  function Search(input: string, kind: string, edition: string, monsters: seq<Entry>, spells: seq<Entry>): (r: SearchResult)
    ensures r.TooShort? <==> |input| < 2
    ensures r.Results? ==> forall e :: e in r.monsters ==>
      e in monsters && e.edition == edition && Contains(ToLower(e.name), ToLower(input))
    ensures r.Results? ==> forall e :: e in r.spells ==>
      e in spells && e.edition == edition && Contains(ToLower(e.name), ToLower(input))
    ensures r.Results? && (kind == "all" || kind == "monster") ==> forall e :: e in monsters && Matches(ToLower(input), edition)(e) ==> e in r.monsters
    ensures r.Results? && (kind == "all" || kind == "spell") ==> forall e :: e in spells && Matches(ToLower(input), edition)(e) ==> e in r.spells
    ensures r.Results? && kind != "all" && kind != "monster" ==> r.monsters == []
    ensures r.Results? && kind != "all" && kind != "spell" ==> r.spells == []
  {
    var q := ToLower(input);
    if |q| < 2 then TooShort
    else
      var m := if kind == "all" || kind == "monster" then Filter(monsters, Matches(q, edition)) else [];
      var s := if kind == "all" || kind == "spell" then Filter(spells, Matches(q, edition)) else [];
      FilterMembers(monsters, Matches(q, edition));
      FilterMembers(spells, Matches(q, edition));
      Results(m, s)
  }

  /** Typing more characters only narrows the results. */
  lemma SearchNarrows(input: string, more: string, kind: string, edition: string, monsters: seq<Entry>, spells: seq<Entry>)
    requires |input| >= 2
    ensures var wide := Search(input, kind, edition, monsters, spells);
      var narrow := Search(input + more, kind, edition, monsters, spells);
      (forall e :: e in narrow.monsters ==> e in wide.monsters)
      && (forall e :: e in narrow.spells ==> e in wide.spells)
  {
    var wide := Search(input, kind, edition, monsters, spells);
    var narrow := Search(input + more, kind, edition, monsters, spells);
    ToLowerAppend(input, more);
    forall e | e in narrow.monsters ensures e in wide.monsters {
      ContainsShorterNeedle(ToLower(e.name), ToLower(input), ToLower(more));
    }
    forall e | e in narrow.spells ensures e in wide.spells {
      ContainsShorterNeedle(ToLower(e.name), ToLower(input), ToLower(more));
    }
  }

  /** The query is case-insensitive. */
  lemma SearchIgnoresCase(input: string, kind: string, edition: string, monsters: seq<Entry>, spells: seq<Entry>)
    ensures Search(ToLower(input), kind, edition, monsters, spells) == Search(input, kind, edition, monsters, spells)
  {
    ToLowerIdempotent(input);
  }

  // ---------------------------------------------------------- the state

  /** `AppState`: the fields the handlers update in place. */
  class AppState {
    var combatants: seq<Combatant>
    var party: seq<PG>
    var activePGs: seq<int>
    var log: seq<LogEntry>
    var totalXP: int

    /** The log never holds more than `LogCap` lines. */
    ghost predicate Valid()
      reads this
    {
      |log| <= LogCap
    }

    /** The state at start-up: no combatants, the rest as saved. */
    constructor (party: seq<PG>, activePGs: seq<int>, log: seq<LogEntry>, totalXP: int)
      requires |log| <= LogCap
      ensures Valid()
      ensures this.combatants == [] && this.party == party && this.activePGs == activePGs
      ensures this.log == log && this.totalXP == totalXP
    {
      this.combatants := [];
      this.party := party;
      this.activePGs := activePGs;
      this.log := log;
      this.totalXP := totalXP;
    }

    /** `addLog`. */
    method AddLog(e: LogEntry)
      requires Valid()
      modifies this
      ensures Valid() && log == Logged(old(log), e)
      ensures combatants == old(combatants) && party == old(party)
      ensures activePGs == old(activePGs) && totalXP == old(totalXP)
    {
      log := [e] + log;
      if |log| > LogCap {
        log := log[..|log| - 1];
      }
    }

    /** `clearLog`, with the answer to its confirmation dialog. */
    method ClearLog(confirmed: bool)
      requires Valid()
      modifies this
      ensures Valid() && log == if confirmed then [] else old(log)
      ensures combatants == old(combatants) && party == old(party)
      ensures activePGs == old(activePGs) && totalXP == old(totalXP)
    {
      if confirmed {
        log := [];
      }
    }

    /** `resetCombat`: once confirmed, only the player entries stay. */
    method ResetCombat(confirmed: bool, time: string)
      requires Valid()
      modifies this
      ensures Valid()
      ensures combatants == if confirmed then Filter(old(combatants), IsPlayer) else old(combatants)
      ensures log == if confirmed then Logged(old(log), LogEntry(time, CombatReset)) else old(log)
      ensures party == old(party) && activePGs == old(activePGs) && totalXP == old(totalXP)
    {
      if confirmed {
        combatants := Filter(combatants, IsPlayer);
        AddLog(LogEntry(time, CombatReset));
      }
    }

    /** `addPG`, with the answer to its name prompt (`None` when cancelled)
        and the id drawn from the clock. A blank name changes nothing; any
        other is trimmed, and the new PG is active at once. */
    method AddPG(input: Option<string>, id: int, time: string)
      requires Valid()
      modifies this
      ensures Valid()
      ensures input.None? || Trim(input.value) == [] ==>
        party == old(party) && activePGs == old(activePGs) && log == old(log)
      ensures input.Some? && Trim(input.value) != [] ==>
        party == old(party) + [NewPG(id, Trim(input.value))]
        && activePGs == old(activePGs) + [id]
        && log == Logged(old(log), LogEntry(time, PGCreated(Trim(input.value))))
      ensures combatants == old(combatants) && totalXP == old(totalXP)
    {
      if input.None? || input.value == "" || Trim(input.value) == "" {
        return;
      }
      var pg := NewPG(id, Trim(input.value));
      party := party + [pg];
      activePGs := activePGs + [pg.id];
      AddLog(LogEntry(time, PGCreated(pg.name)));
    }

    /** `togglePGActive`: activate an inactive PG; deactivate an active one
        and take its player entry out of the fight. */
    method TogglePGActive(pgId: int, time: string)
      requires Valid()
      modifies this
      ensures Valid() && activePGs == Toggled(old(activePGs), pgId)
      ensures pgId !in old(activePGs) ==>
        combatants == old(combatants)
        && log == Logged(old(log), LogEntry(time, PGActivated(DisplayName(FindPG(party, pgId)))))
      ensures pgId in old(activePGs) ==>
        combatants == Filter(old(combatants), NotPlayerWith(pgId))
        && log == Logged(old(log), LogEntry(time, PGDeactivated(DisplayName(FindPG(party, pgId)))))
      ensures party == old(party) && totalXP == old(totalXP)
    {
      var index := IndexOf(activePGs, pgId);
      var pg := FindPG(party, pgId);
      if index == -1 {
        activePGs := activePGs + [pgId];
        AddLog(LogEntry(time, PGActivated(DisplayName(pg))));
      } else {
        activePGs := RemoveAt(activePGs, index);
        combatants := Filter(combatants, NotPlayerWith(pgId));
        AddLog(LogEntry(time, PGDeactivated(DisplayName(pg))));
      }
    }

    /** `removePG`, with the answer to its confirmation dialog (asked only
        when the PG exists). */
    method RemovePG(pgId: int, confirmed: bool, time: string)
      requires Valid()
      modifies this
      ensures Valid()
      ensures FindPG(old(party), pgId).None? || !confirmed ==>
        party == old(party) && activePGs == old(activePGs) && combatants == old(combatants) && log == old(log)
      ensures FindPG(old(party), pgId).Some? && confirmed ==>
        party == Filter(old(party), OtherPG(pgId))
        && activePGs == Filter(old(activePGs), OtherId(pgId))
        && combatants == Filter(old(combatants), NotPlayerWith(pgId))
        && log == Logged(old(log), LogEntry(time, PGRemoved(FindPG(old(party), pgId).value.name)))
      ensures totalXP == old(totalXP)
    {
      var pg := FindPG(party, pgId);
      if pg.Some? && confirmed {
        party := Filter(party, OtherPG(pgId));
        activePGs := Filter(activePGs, OtherId(pgId));
        combatants := Filter(combatants, NotPlayerWith(pgId));
        AddLog(LogEntry(time, PGRemoved(pg.value.name)));
      }
    }

    /** The `forEach` of both XP handlers: the first PG with each id gains
        `share` (`(pg.xp || 0) + share`). */
    method GrantShare(ids: seq<int>, share: int)
      modifies this
      ensures party == Granted(old(party), ids, share)
      ensures combatants == old(combatants) && activePGs == old(activePGs)
      ensures log == old(log) && totalXP == old(totalXP)
    {
      var i := 0;
      while i < |ids|
        invariant 0 <= i <= |ids|
        invariant party == Granted(old(party), ids[..i], share)
        invariant combatants == old(combatants) && activePGs == old(activePGs)
        invariant log == old(log) && totalXP == old(totalXP)
      {
        assert ids[..i + 1][..i] == ids[..i];
        ghost var before := party;
        var found := FindIndex(party, HasId(ids[i]));
        if found.Some? {
          var k := found.value;
          var pg := party[k];
          var xp := Or(pg.xp, 0) + share;
          assert xp == pg.xp + share;
          party := party[k := pg.(xp := xp)];
        }
        i := i + 1;
      }
      assert ids[..i] == ids;
    }

    /** `assignXP`: with active PGs and a non-zero pool, every active id's PG
        gains the floor of the pool over the number of active ids, and the
        pool is emptied. */
    method AssignXP(time: string)
      requires Valid()
      modifies this
      ensures Valid()
      ensures |old(activePGs)| == 0 || old(totalXP) == 0 ==>
        party == old(party) && totalXP == old(totalXP) && log == old(log)
      ensures |old(activePGs)| > 0 && old(totalXP) != 0 ==>
        var share := Share(old(totalXP), |old(activePGs)|);
        && party == Granted(old(party), old(activePGs), share)
        && totalXP == 0
        && log == Logged(old(log), LogEntry(time, XpSharedToActive(share, Names(party, activePGs))))
      ensures combatants == old(combatants) && activePGs == old(activePGs)
    {
      if |activePGs| == 0 {
        return;
      }
      if totalXP == 0 {
        return;
      }
      var share := Share(totalXP, |activePGs|);
      GrantShare(activePGs, share);
      AddLog(LogEntry(time, XpSharedToActive(share, Names(party, activePGs))));
      totalXP := 0;
    }

    /** `assignXpToSelected`, with the ids of the checked boxes: a non-empty
        selection shares the pool (whatever it holds) by floor division, and
        the pool is emptied. */
    method AssignXpToSelected(selected: seq<int>, time: string)
      requires Valid()
      modifies this
      ensures Valid()
      ensures |selected| == 0 ==> party == old(party) && totalXP == old(totalXP) && log == old(log)
      ensures |selected| > 0 ==>
        var share := Share(old(totalXP), |selected|);
        && party == Granted(old(party), selected, share)
        && totalXP == 0
        && log == Logged(old(log), LogEntry(time, XpSharedToSelected(share, Names(party, selected))))
      ensures combatants == old(combatants) && activePGs == old(activePGs)
    {
      if |selected| == 0 {
        return;
      }
      var share := Share(totalXP, |selected|);
      GrantShare(selected, share);
      AddLog(LogEntry(time, XpSharedToSelected(share, Names(party, selected))));
      totalXP := 0;
    }

    /** `updateHpGlobal`: add `amount` to the entry's hit points (starting
        from the default when they read 0), clamp at 0, copy a player's
        value into the party, and retire a monster that reaches 0 with its
        reward added to the pool. */
    method UpdateHpGlobal(instanceId: int, amount: int, time: string)
      requires Valid()
      modifies this
      ensures Valid()
      ensures FindIndex(old(combatants), WithInstance(instanceId)).None? ==>
        combatants == old(combatants) && party == old(party) && totalXP == old(totalXP) && log == old(log)
      ensures FindIndex(old(combatants), WithInstance(instanceId)).Some? ==>
        var k := FindIndex(old(combatants), WithInstance(instanceId)).value;
        var c := old(combatants)[k];
        var h := NewHp(c, amount);
        && (c.isPlayer ==>
              combatants == old(combatants)[k := c.(currentHp := h)]
              && party == MirrorHp(old(party), instanceId, h)
              && totalXP == old(totalXP) && log == old(log))
        && (!c.isPlayer && h > 0 ==>
              combatants == old(combatants)[k := c.(currentHp := h)]
              && party == old(party) && totalXP == old(totalXP) && log == old(log))
        && (!c.isPlayer && h == 0 ==>
              combatants == Filter(old(combatants), OtherInstance(instanceId))
              && party == old(party)
              && totalXP == old(totalXP) + Reward(c)
              && log == Logged(old(log), LogEntry(time, Defeated(c.name, Reward(c)))))
      ensures activePGs == old(activePGs)
    {
      var found := FindIndex(combatants, WithInstance(instanceId));
      if found.None? {
        return;
      }
      var k := found.value;
      var c := combatants[k];
      var hp := NewHp(c, amount);
      combatants := combatants[k := c.(currentHp := hp)];
      if c.isPlayer {
        var p := FindIndex(party, HasId(c.instanceId));
        if p.Some? {
          party := party[p.value := party[p.value].(currentHp := hp)];
        }
      } else if hp <= 0 {
        var reward := Reward(c);
        totalXP := totalXP + reward;
        AddLog(LogEntry(time, Defeated(c.name, reward)));
        DefeatedLeaves(old(combatants), k, hp, c);
        combatants := Filter(combatants, OtherInstance(instanceId));
      }
    }

    /** `addCheckedPGsToCombat`, with the ids of the checked boxes: each PG
        that exists and is not yet in the fight as a player joins it. */
    method AddCheckedPGsToCombat(checked: seq<int>, time: string)
      requires Valid()
      modifies this
      ensures Valid()
      ensures combatants == Merged(old(combatants), party, checked)
      ensures log == if |combatants| > |old(combatants)|
        then Logged(old(log), LogEntry(time, PGsJoinedCombat(|combatants| - |old(combatants)|)))
        else old(log)
      ensures party == old(party) && activePGs == old(activePGs) && totalXP == old(totalXP)
    {
      var added := 0;
      var i := 0;
      while i < |checked|
        invariant 0 <= i <= |checked|
        invariant combatants == Merged(old(combatants), party, checked[..i])
        invariant added == |combatants| - |old(combatants)|
        invariant party == old(party) && activePGs == old(activePGs)
        invariant log == old(log) && totalXP == old(totalXP)
      {
        assert checked[..i + 1][..i] == checked[..i];
        var pgId := checked[i];
        var pg := FindPG(party, pgId);
        var alreadyInCombat := FindIndex(combatants, PlayerWith(pgId));
        if pg.Some? && alreadyInCombat.None? {
          combatants := combatants + [JoinCombat(pg.value)];
          added := added + 1;
        }
        i := i + 1;
      }
      assert checked[..i] == checked;
      if added > 0 {
        AddLog(LogEntry(time, PGsJoinedCombat(added)));
      }
    }

    /** `updateInit`: set the entry's initiative to `parseInt(val) || 0` and
        re-sort the fight by descending initiative. */
    method UpdateInit(instanceId: int, val: string)
      requires Valid()
      modifies this
      ensures Valid()
      ensures FindIndex(old(combatants), WithInstance(instanceId)).None? ==> combatants == old(combatants)
      ensures FindIndex(old(combatants), WithInstance(instanceId)).Some? ==>
        var k := FindIndex(old(combatants), WithInstance(instanceId)).value;
        var updated := old(combatants)[k := old(combatants)[k].(initiative := InitiativeOf(val))];
        && combatants == SortByInitiative(updated)
        && Descending(combatants)
        && multiset(combatants) == multiset(updated)
      ensures party == old(party) && activePGs == old(activePGs)
      ensures log == old(log) && totalXP == old(totalXP)
    {
      var found := FindIndex(combatants, WithInstance(instanceId));
      if found.Some? {
        var k := found.value;
        combatants := combatants[k := combatants[k].(initiative := InitiativeOf(val))];
        combatants := SortByInitiative(combatants);
      }
    }
  }
}
