/**
 * `check_invite` and `handle_result` of checker.py: each deduplicated invite
 * code is looked up once and classified, which raises one of the counters
 * hit, bad and failed, may record the server's guild id as seen, and appends
 * the code (or the guild id) to one of the files valid.txt, valid_ids.txt,
 * bad.txt, invalid.txt and failed.txt.
 *
 * The HTTP lookup itself is an input: a `Lookup` says what `send_request`
 * came back with. The functions `Classify`, `Record`, `Step` and `Run` are the
 * specification; the class `Session` holds the module-level state of the
 * script and its methods do what the Python code does, step by step.
 */
module Checker {
  import opened Wrappers
  import Dedup

  /** config.json, as `Config.load` reads it. */
  datatype Config = Config(
    minMembers: int,
    maxMembers: int,
    minMembersOnline: int,
    minBoosts: int,
    useProxies: bool,
    threads: int,
    saveOnlyPermanentInvites: bool)

  /** A key of a JSON object: absent, present with the value null, or present with a value. */
  datatype Field<T> = Missing | Null | Present(value: T)

  /**
   * The "guild" object of an invite. `None` for `id` or `name` means the key
   * is absent; `premiumSubscriptionCount` is the boost count.
   */
  datatype Guild = Guild(id: Option<string>, name: Option<string>, premiumSubscriptionCount: Field<int>)

  /**
   * A JSON object returned by the invite endpoint. `inviteType` is Null for
   * null or any value that is not a number; `guild` is Null for null or any
   * value that is not an object; `expiresAt` is None when the key is absent
   * or null (`dict.get`).
   */
  datatype Response = Response(
    inviteType: Field<int>,
    expiresAt: Option<string>,
    guild: Field<Guild>,
    approximateMemberCount: Field<int>,
    approximatePresenceCount: Field<int>)

  /**
   * What `send_request` gives `check_invite`: the request failed (it raised,
   * or the status was not 200), the body was JSON null, the body was JSON but
   * not an object (a list, a string, a number), or an object.
   */
  datatype Lookup = RequestFailed | NullBody | NonObjectBody | ObjectBody(response: Response)

  /** Why `handle_result` rejects an invite, in the order it checks. */
  datatype Reason = MemberAmountMismatch | NotEnoughBoosts | NotEnoughMembersOnline | NotPermanent

  /** What `handle_result` does: a hit, a rejection, or a TypeError from comparing a null count. */
  datatype Verdict = Hit | Bad(reason: Reason) | Raised

  /** The fields `check_invite` reads, or the exception that reading them raises. */
  datatype Extraction =
    | KeyError
    | TypeError
    | Extracted(kind: Field<int>, expires: Option<string>, guildId: string, guildName: string,
                boosts: Option<int>, members: Option<int>, online: Option<int>)

  /** How `check_invite` ends for one code. */
  datatype Outcome =
    | FailedRequest
    | EmptyBody
    | FailedCheck
    | DeadInvite
    | DuplicateGuild
    | NotServerInvite
    | Judged(guildId: string, verdict: Verdict)

  /**
   * The observable state: the three counters, the seen-guild set and what
   * this run appended to each of the five files.
   */
  datatype Ledger = Ledger(
    hit: nat, bad: nat, failed: nat,
    checkedGuildIds: set<string>,
    valid: seq<string>, validIds: seq<string>, badLog: seq<string>, invalid: seq<string>, failedLog: seq<string>)

  function EmptyLedger(): Ledger
  {
    Ledger(0, 0, 0, {}, [], [], [], [], [])
  }

  function Total(l: Ledger): nat
  {
    l.hit + l.bad + l.failed
  }

  // ---------------------------------------------------------------------------
  // Specification
  // ---------------------------------------------------------------------------

  /** `dict.get(key, 0)` on a count: 0 when absent, None when null. */
  function Count(f: Field<int>): Option<int>
  {
    match f
    case Missing => Some(0)
    case Null => None
    case Present(v) => Some(v)
  }

  /**
   * The reads at the top of the `try` of `check_invite`, in their order:
   * `["type"]`, `["guild"]`, then `["id"]` and `["name"]` of the guild; the
   * other fields are read with `get` and cannot raise.
   */
  function Extract(r: Response): (x: Extraction)
    ensures x.KeyError? <==>
              r.inviteType.Missing? || r.guild.Missing? ||
              (r.guild.Present? && (r.guild.value.id.None? || r.guild.value.name.None?))
    ensures x.TypeError? <==> !r.inviteType.Missing? && r.guild.Null?
    ensures x.Extracted? ==>
              x.kind == r.inviteType && x.expires == r.expiresAt &&
              r.guild == Present(Guild(Some(x.guildId), Some(x.guildName), r.guild.value.premiumSubscriptionCount)) &&
              x.boosts == Count(r.guild.value.premiumSubscriptionCount) &&
              x.members == Count(r.approximateMemberCount) && x.online == Count(r.approximatePresenceCount)
  {
    if r.inviteType.Missing? || r.guild.Missing? then KeyError
    else if r.guild.Null? then TypeError
    else
      var g := r.guild.value;
      if g.id.None? || g.name.None? then KeyError
      else Extracted(r.inviteType, r.expiresAt, g.id.value, g.name.value,
                     Count(g.premiumSubscriptionCount), Count(r.approximateMemberCount),
                     Count(r.approximatePresenceCount))
  }

  /** The four thresholds of `handle_result`, all met. */
  predicate MeetsThresholds(config: Config, online: int, members: int, boosts: int, permanent: bool)
  {
    config.minMembers <= members <= config.maxMembers &&
    boosts >= config.minBoosts &&
    online >= config.minMembersOnline &&
    (config.saveOnlyPermanentInvites ==> permanent)
  }

  /**
   * `handle_result` as a value. It is a hit exactly when every count it
   * compares is a number and all thresholds are met; otherwise the first
   * check that fails, in source order, gives the reason, and a null count
   * raises when its comparison is reached.
   */
  function Judge(config: Config, online: Option<int>, members: Option<int>, boosts: Option<int>,
                 expiresAt: Option<string>): (v: Verdict)
    ensures v == Hit <==>
              online.Some? && members.Some? && boosts.Some? &&
              MeetsThresholds(config, online.value, members.value, boosts.value, expiresAt.None?)
    ensures v == Bad(MemberAmountMismatch) <==>
              members.Some? && !(config.minMembers <= members.value <= config.maxMembers)
    ensures v == Bad(NotEnoughBoosts) <==>
              members.Some? && config.minMembers <= members.value <= config.maxMembers &&
              boosts.Some? && boosts.value < config.minBoosts
    ensures v == Bad(NotEnoughMembersOnline) <==>
              members.Some? && config.minMembers <= members.value <= config.maxMembers &&
              boosts.Some? && boosts.value >= config.minBoosts &&
              online.Some? && online.value < config.minMembersOnline
    ensures v == Bad(NotPermanent) <==>
              online.Some? && members.Some? && boosts.Some? &&
              MeetsThresholds(config, online.value, members.value, boosts.value, true) &&
              config.saveOnlyPermanentInvites && expiresAt.Some?
    ensures v == Raised <==>
              members.None? ||
              (config.minMembers <= members.value <= config.maxMembers &&
               (boosts.None? || (boosts.value >= config.minBoosts && online.None?)))
  {
    if members.None? then Raised
    else if !(config.minMembers <= members.value <= config.maxMembers) then Bad(MemberAmountMismatch)
    else if boosts.None? then Raised
    else if boosts.value < config.minBoosts then Bad(NotEnoughBoosts)
    else if online.None? then Raised
    else if online.value < config.minMembersOnline then Bad(NotEnoughMembersOnline)
    else if config.saveOnlyPermanentInvites && expiresAt.Some? then Bad(NotPermanent)
    else Hit
  }

  /**
   * `check_invite` as a value: how the lookup of one code ends, given the
   * guild ids seen so far.
   */
  function Classify(config: Config, seen: set<string>, lookup: Lookup): (o: Outcome)
    ensures o.Judged? ==> o.guildId !in seen
    ensures o == DuplicateGuild ==> lookup.ObjectBody? && Extract(lookup.response).Extracted? &&
                                     Extract(lookup.response).guildId in seen
  {
    match lookup
    case RequestFailed => FailedRequest
    case NullBody => EmptyBody
    case NonObjectBody => FailedCheck
    case ObjectBody(r) =>
      match Extract(r)
      case KeyError => DeadInvite
      case TypeError => FailedCheck
      case Extracted(kind, expires, guildId, _, boosts, members, online) =>
        if guildId in seen then DuplicateGuild
        else if kind != Present(0) then NotServerInvite
        else Judged(guildId, Judge(config, online, members, boosts, expires))
  }

  /** The bookkeeping of a failure: `failed` + 1 and the code appended to failed.txt. */
  function Fail(l: Ledger, code: string): Ledger
  {
    l.(failed := l.failed + 1, failedLog := l.failedLog + [code])
  }

  /** The bookkeeping of a rejection: `bad` + 1 and the code appended to bad.txt. */
  function Reject(l: Ledger, code: string): Ledger
  {
    l.(bad := l.bad + 1, badLog := l.badLog + [code])
  }

  /** What `handle_result` writes for a verdict; a raise writes nothing. */
  function Report(l: Ledger, code: string, guildId: string, v: Verdict): Ledger
  {
    match v
    case Hit => l.(hit := l.hit + 1, valid := l.valid + [code], validIds := l.validIds + [guildId])
    case Bad(_) => Reject(l, code)
    case Raised => l
  }

  /**
   * The state after an outcome of `check_invite` for `code`: the counter
   * total rises by one unless the body was null or the guild already seen;
   * the seen set gains the guild of a judged invite and nothing else; every
   * file is only appended to.
   */
  function Record(l: Ledger, code: string, o: Outcome): (r: Ledger)
    ensures Total(r) == Total(l) + (if o == EmptyBody || o == DuplicateGuild then 0 else 1)
    ensures r.checkedGuildIds == (if o.Judged? then l.checkedGuildIds + {o.guildId} else l.checkedGuildIds)
    ensures l.valid <= r.valid && l.validIds <= r.validIds && l.badLog <= r.badLog &&
            l.invalid <= r.invalid && l.failedLog <= r.failedLog
  {
    match o
    case FailedRequest => Fail(l, code)
    case EmptyBody => l
    case FailedCheck => Fail(l, code)
    case DeadInvite => l.(bad := l.bad + 1, invalid := l.invalid + [code])
    case DuplicateGuild => l
    case NotServerInvite => Reject(l, code)
    case Judged(guildId, v) =>
      var seen := l.(checkedGuildIds := l.checkedGuildIds + {guildId});
      var reported := Report(seen, code, guildId, v);
      if v == Raised then Fail(reported, code) else reported
  }

  /**
   * One call of `check_invite`. It leaves the state as it was exactly when
   * the body is null or names a guild already seen.
   */
  function Step(config: Config, l: Ledger, code: string, lookup: Lookup): (r: Ledger)
    ensures var o := Classify(config, l.checkedGuildIds, lookup);
            r == l <==> o == EmptyBody || o == DuplicateGuild
  {
    Record(l, code, Classify(config, l.checkedGuildIds, lookup))
  }

  /**
   * `check_invite` called on each code in turn, `lookup` giving each code's
   * response. Each code raises the counter total by at most 1, and the seen
   * set only grows.
   */
  function Run(config: Config, l: Ledger, codes: seq<string>, lookup: string -> Lookup): (r: Ledger)
    ensures Total(l) <= Total(r) <= Total(l) + |codes|
    ensures l.checkedGuildIds <= r.checkedGuildIds
  {
    if codes == [] then l
    else
      var last := codes[|codes| - 1];
      Step(config, Run(config, l, codes[..|codes| - 1], lookup), last, lookup(last))
  }

  /**
   * Counters agree with the files: one valid.txt and one valid_ids.txt line
   * per hit, one bad.txt or invalid.txt line per bad, one failed.txt line per
   * failure; every valid guild was recorded as seen, and none is valid twice.
   */
  predicate Consistent(l: Ledger)
  {
    l.hit == |l.valid| == |l.validIds| &&
    l.bad == |l.badLog| + |l.invalid| &&
    l.failed == |l.failedLog| &&
    (forall i :: 0 <= i < |l.validIds| ==> l.validIds[i] in l.checkedGuildIds) &&
    Dedup.NoDuplicates(l.validIds)
  }

  // ---------------------------------------------------------------------------
  // Properties of one call
  // ---------------------------------------------------------------------------

  /**
   * One call raises exactly one counter by exactly 1, except a null body and
   * a guild already seen, which change no counter.
   */
  lemma StepRaisesOneCounter(config: Config, l: Ledger, code: string, lookup: Lookup)
    ensures var o, n := Classify(config, l.checkedGuildIds, lookup), Step(config, l, code, lookup);
            if o == EmptyBody || o == DuplicateGuild then n.hit == l.hit && n.bad == l.bad && n.failed == l.failed
            else
              (n.hit == l.hit + 1 && n.bad == l.bad && n.failed == l.failed) ||
              (n.hit == l.hit && n.bad == l.bad + 1 && n.failed == l.failed) ||
              (n.hit == l.hit && n.bad == l.bad && n.failed == l.failed + 1)
  {
    var o := Classify(config, l.checkedGuildIds, lookup);
    if o.Judged? {
      match o.verdict
      case Hit =>
      case Bad(_) =>
      case Raised =>
    }
  }

  /**
   * A hit, exactly when the body is an object with type 0, a guild with id
   * and name, a guild not seen before, numeric counts that meet every
   * threshold; a hit adds the code to valid.txt and the guild id to
   * valid_ids.txt and to the seen set.
   */
  lemma StepHitIff(config: Config, l: Ledger, code: string, lookup: Lookup)
    ensures var n := Step(config, l, code, lookup);
            n.hit == l.hit + 1 <==>
              lookup.ObjectBody? &&
              var x := Extract(lookup.response);
              x.Extracted? && x.guildId !in l.checkedGuildIds && x.kind == Present(0) &&
              x.online.Some? && x.members.Some? && x.boosts.Some? &&
              MeetsThresholds(config, x.online.value, x.members.value, x.boosts.value, x.expires.None?)
    ensures var n := Step(config, l, code, lookup);
            n.hit == l.hit + 1 ==>
              var id := Extract(lookup.response).guildId;
              n == l.(hit := l.hit + 1, valid := l.valid + [code], validIds := l.validIds + [id],
                      checkedGuildIds := l.checkedGuildIds + {id})
  {
    var o := Classify(config, l.checkedGuildIds, lookup);
    if lookup.ObjectBody? && Extract(lookup.response).Extracted? && o.Judged? {
      match o.verdict
      case Hit =>
      case Bad(_) =>
      case Raised =>
    }
  }

  /** A failed request: `failed` + 1, the code appended to failed.txt, nothing else changes. */
  lemma StepFailedRequest(config: Config, l: Ledger, code: string)
    ensures Step(config, l, code, RequestFailed) == l.(failed := l.failed + 1, failedLog := l.failedLog + [code])
  {
  }

  /**
   * A response missing "type", "guild", or the guild's "id" or "name" is a
   * dead invite whatever guilds were seen before: `bad` + 1 and the code
   * appended to invalid.txt, nothing else.
   */
  lemma StepDeadInvite(config: Config, l: Ledger, code: string, r: Response)
    requires r.inviteType.Missing? || r.guild.Missing? ||
             (r.guild.Present? && (r.guild.value.id.None? || r.guild.value.name.None?))
    ensures Step(config, l, code, ObjectBody(r)) == l.(bad := l.bad + 1, invalid := l.invalid + [code])
  {
  }

  /** A guild already seen: no counter, file or set changes. */
  lemma StepDuplicateGuild(config: Config, l: Ledger, code: string, r: Response)
    requires Extract(r).Extracted? && Extract(r).guildId in l.checkedGuildIds
    ensures Step(config, l, code, ObjectBody(r)) == l
  {
  }

  /**
   * An unseen guild whose invite type is not 0: `bad` + 1 and the code
   * appended to bad.txt; its guild id is not recorded, so a later server
   * invite to the same guild is still judged.
   */
  lemma StepNotServerInvite(config: Config, l: Ledger, code: string, r: Response)
    requires Extract(r).Extracted? && Extract(r).guildId !in l.checkedGuildIds && r.inviteType != Present(0)
    ensures Step(config, l, code, ObjectBody(r)) == l.(bad := l.bad + 1, badLog := l.badLog + [code])
    ensures Extract(r).guildId !in Step(config, l, code, ObjectBody(r)).checkedGuildIds
  {
  }

  /**
   * A server invite of an unseen guild is judged; its guild id is recorded
   * before the thresholds are checked, so it is recorded even when the
   * invite is rejected or a null count raises.
   */
  lemma StepRecordsJudgedGuild(config: Config, l: Ledger, code: string, r: Response)
    requires Extract(r).Extracted? && Extract(r).guildId !in l.checkedGuildIds && r.inviteType == Present(0)
    ensures Step(config, l, code, ObjectBody(r)).checkedGuildIds == l.checkedGuildIds + {Extract(r).guildId}
  {
    var x := Extract(r);
    match Judge(config, x.online, x.members, x.boosts, x.expires)
    case Hit =>
    case Bad(_) =>
    case Raised =>
  }

  /**
   * A count the response leaves out is read as 0 (`dict.get(key, 0)`): one
   * call goes exactly as it would with that count present and 0. (A null
   * count is not read as 0; see `NullMembersFails`.)
   */
  lemma MissingCountsReadAsZero(config: Config, l: Ledger, code: string, r: Response)
    ensures r.approximateMemberCount.Missing? ==>
              Step(config, l, code, ObjectBody(r)) ==
              Step(config, l, code, ObjectBody(r.(approximateMemberCount := Present(0))))
    ensures r.approximatePresenceCount.Missing? ==>
              Step(config, l, code, ObjectBody(r)) ==
              Step(config, l, code, ObjectBody(r.(approximatePresenceCount := Present(0))))
    ensures r.guild.Present? && r.guild.value.premiumSubscriptionCount.Missing? ==>
              Step(config, l, code, ObjectBody(r)) ==
              Step(config, l, code, ObjectBody(r.(guild := Present(r.guild.value.(premiumSubscriptionCount := Present(0))))))
  {
  }

  /** One call keeps the counters and the files in agreement. */
  lemma StepKeepsConsistent(config: Config, l: Ledger, code: string, lookup: Lookup)
    requires Consistent(l)
    ensures Consistent(Step(config, l, code, lookup))
  {
    var o := Classify(config, l.checkedGuildIds, lookup);
    var n := Step(config, l, code, lookup);
    if o.Judged? {
      var id := o.guildId;
      var seen := l.(checkedGuildIds := l.checkedGuildIds + {id});
      match o.verdict
      case Hit =>
        assert id !in l.validIds;
        assert n.validIds == l.validIds + [id];
        assert n.checkedGuildIds == l.checkedGuildIds + {id};
      case Bad(_) =>
        assert n.validIds == l.validIds && n.checkedGuildIds == l.checkedGuildIds + {id};
      case Raised =>
        assert n.validIds == l.validIds && n.checkedGuildIds == l.checkedGuildIds + {id};
    }
  }

  // ---------------------------------------------------------------------------
  // Properties of a whole pass
  // ---------------------------------------------------------------------------

  /** A pass over the codes keeps the counters and the files in agreement. */
  lemma {:induction false} RunKeepsConsistent(config: Config, l: Ledger, codes: seq<string>, lookup: string -> Lookup)
    requires Consistent(l)
    ensures Consistent(Run(config, l, codes, lookup))
  {
    if codes != [] {
      var init, last := codes[..|codes| - 1], codes[|codes| - 1];
      RunKeepsConsistent(config, l, init, lookup);
      StepKeepsConsistent(config, Run(config, l, init, lookup), last, lookup(last));
    }
  }

  /** Over a whole pass from the start, no guild id is written to valid_ids.txt twice. */
  lemma ValidGuildsOnce(config: Config, codes: seq<string>, lookup: string -> Lookup)
    ensures Dedup.NoDuplicates(Run(config, EmptyLedger(), codes, lookup).validIds)
    ensures Run(config, EmptyLedger(), codes, lookup).hit == |Run(config, EmptyLedger(), codes, lookup).valid|
  {
    RunKeepsConsistent(config, EmptyLedger(), codes, lookup);
  }

  // ---------------------------------------------------------------------------
  // Examples
  // ---------------------------------------------------------------------------

  /** A configuration: 10 to 100 members, 2 online, 1 boost, permanent invites only. */
  function SampleConfig(): Config
  {
    Config(10, 100, 2, 1, false, 4, true)
  }

  /** A server invite with `members` members, 5 online, 3 boosts, not expiring. */
  function SampleResponse(members: int): Response
  {
    Response(Present(0), None, Present(Guild(Some("42"), Some("guild"), Present(3))), Present(members), Present(5))
  }

  /** The member bounds are inclusive: exactly the minimum is a hit, one less is rejected. */
  lemma MemberBoundsInclusive()
    ensures Classify(SampleConfig(), {}, ObjectBody(SampleResponse(10))) == Judged("42", Hit)
    ensures Classify(SampleConfig(), {}, ObjectBody(SampleResponse(100))) == Judged("42", Hit)
    ensures Classify(SampleConfig(), {}, ObjectBody(SampleResponse(9))) == Judged("42", Bad(MemberAmountMismatch))
    ensures Classify(SampleConfig(), {}, ObjectBody(SampleResponse(101))) == Judged("42", Bad(MemberAmountMismatch))
  {
    assert Extract(SampleResponse(10)).guildId == "42";
  }

  /**
   * After a server invite to an unseen guild is judged, any later invite to
   * the same guild is skipped without a trace, whatever the first verdict.
   */
  lemma SecondInviteToGuildSkipped(config: Config, l: Ledger, code1: string, code2: string, r1: Response, r2: Response)
    requires Extract(r1).Extracted? && Extract(r1).guildId !in l.checkedGuildIds && r1.inviteType == Present(0)
    requires Extract(r2).Extracted? && Extract(r2).guildId == Extract(r1).guildId
    ensures var l1 := Step(config, l, code1, ObjectBody(r1));
            Step(config, l1, code2, ObjectBody(r2)) == l1
  {
    StepRecordsJudgedGuild(config, l, code1, r1);
  }

  /** A null member count raises after the guild id is recorded: a failure, and the guild counts as seen. */
  lemma NullMembersFails(code: string)
    ensures var r := SampleResponse(0).(approximateMemberCount := Null);
            Step(SampleConfig(), EmptyLedger(), code, ObjectBody(r)) ==
              EmptyLedger().(failed := 1, failedLog := [code], checkedGuildIds := {"42"})
  {
    var r := SampleResponse(0).(approximateMemberCount := Null);
    assert Extract(r).members == None;
  }

  // ---------------------------------------------------------------------------
  // The script's state and its two functions
  // ---------------------------------------------------------------------------

  /** The `Counter` dataclass. */
  class Counter {
    var hit: nat
    var bad: nat
    var failed: nat

    constructor()
      ensures hit == 0 && bad == 0 && failed == 0
    {
      hit, bad, failed := 0, 0, 0;
    }
  }

  /**
   * The module-level state of checker.py: the loaded config, the counter,
   * the deduplicated proxies, the seen guild ids, and what was appended to
   * each output file.
   */
  class Session {
    const config: Config
    const counter: Counter
    const dedupedProxies: seq<string>
    var checkedGuildIds: set<string>
    var valid: seq<string>
    var validIds: seq<string>
    var badLog: seq<string>
    var invalid: seq<string>
    var failedLog: seq<string>

    ghost function Snapshot(): Ledger
      reads this, counter
    {
      Ledger(counter.hit, counter.bad, counter.failed, checkedGuildIds, valid, validIds, badLog, invalid, failedLog)
    }

    constructor(config: Config, dedupedProxies: seq<string>)
      ensures this.config == config && this.dedupedProxies == dedupedProxies
      ensures Snapshot() == EmptyLedger()
      ensures fresh(counter)
    {
      this.config := config;
      this.dedupedProxies := dedupedProxies;
      counter := new Counter();
      checkedGuildIds := {};
      valid, validIds, badLog, invalid, failedLog := [], [], [], [], [];
    }

    /** The `except` branches that write failed.txt. */
    method RecordFailure(code: string)
      modifies this, counter
      ensures Snapshot() == Fail(old(Snapshot()), code)
    {
      failedLog := failedLog + [code];
      counter.failed := counter.failed + 1;
    }

    /** A rejection: the code appended to bad.txt, `bad` + 1. */
    method RecordBad(code: string)
      modifies this, counter
      ensures Snapshot() == Reject(old(Snapshot()), code)
    {
      badLog := badLog + [code];
      counter.bad := counter.bad + 1;
    }

    /**
     * `handle_result`. A null count raises (`Raised`) when its comparison
     * is reached, and then nothing has been written.
     */
    method HandleResult(code: string, guildId: string, guildName: string, online: Option<int>,
                        members: Option<int>, boosts: Option<int>, expiresAt: Option<string>)
      returns (v: Verdict)
      modifies this, counter
      ensures v == Judge(config, online, members, boosts, expiresAt)
      ensures Snapshot() == Report(old(Snapshot()), code, guildId, v)
    {
      var isPermanent := expiresAt.None?;
      if members.None? {
        return Raised;
      }
      if !(config.minMembers <= members.value <= config.maxMembers) {
        RecordBad(code);
        return Bad(MemberAmountMismatch);
      }
      if boosts.None? {
        return Raised;
      }
      if boosts.value < config.minBoosts {
        RecordBad(code);
        return Bad(NotEnoughBoosts);
      }
      if online.None? {
        return Raised;
      }
      if online.value < config.minMembersOnline {
        RecordBad(code);
        return Bad(NotEnoughMembersOnline);
      }
      if config.saveOnlyPermanentInvites && !isPermanent {
        RecordBad(code);
        return Bad(NotPermanent);
      }
      valid := valid + [code];
      validIds := validIds + [guildId];
      counter.hit := counter.hit + 1;
      return Hit;
    }

    /** `check_invite`, with `send_request`'s result given as `lookup`. */
    method CheckInvite(code: string, lookup: Lookup) returns (o: Outcome)
      modifies this, counter
      ensures o == Classify(config, old(checkedGuildIds), lookup)
      ensures Snapshot() == Record(old(Snapshot()), code, o)
    {
      match lookup
      case RequestFailed =>
        RecordFailure(code);
        return FailedRequest;
      case NullBody =>
        return EmptyBody;
      case NonObjectBody =>
        RecordFailure(code);
        return FailedCheck;
      case ObjectBody(r) =>
        var x := Extract(r);
        if x.KeyError? {
          invalid := invalid + [code];
          counter.bad := counter.bad + 1;
          return DeadInvite;
        }
        if x.TypeError? {
          RecordFailure(code);
          return FailedCheck;
        }
        if x.guildId in checkedGuildIds {
          return DuplicateGuild;
        }
        if x.kind != Present(0) {
          RecordBad(code);
          return NotServerInvite;
        }
        checkedGuildIds := checkedGuildIds + {x.guildId};
        var v := HandleResult(code, x.guildId, x.guildName, x.online, x.members, x.boosts, x.expires);
        if v == Raised {
          RecordFailure(code);
        }
        return Judged(x.guildId, v);
    }

    /** `check_invite` on each deduplicated code in turn. */
    method CheckAll(codes: seq<string>, lookup: string -> Lookup)
      modifies this, counter
      ensures Snapshot() == Run(config, old(Snapshot()), codes, lookup)
    {
      for n := 0 to |codes|
        invariant Snapshot() == Run(config, old(Snapshot()), codes[..n], lookup)
      {
        assert codes[..n + 1][..n] == codes[..n];
        var _ := CheckInvite(codes[n], lookup(codes[n]));
      }
      assert codes[..|codes|] == codes;
    }
  }

  /**
   * `main` after the banner: deduplicate proxies.txt and invites.txt, then
   * check every distinct code once, in order. A thread pool of no workers
   * (`threads` <= 0) raises `ValueError` before any code is checked; then
   * `started` is false and the state is still empty.
   */
  method CheckFiles(config: Config, proxyLines: seq<string>, inviteLines: seq<string>, lookup: string -> Lookup)
    returns (s: Session, started: bool)
    ensures s.config == config && s.dedupedProxies == Dedup.Dedupe(Dedup.Entries(proxyLines))
    ensures started <==> config.threads > 0
    ensures s.Snapshot() ==
              if started then Run(config, EmptyLedger(), Dedup.Dedupe(Dedup.Codes(inviteLines)), lookup)
              else EmptyLedger()
  {
    var proxies, _ := Dedup.DedupProxies(proxyLines);
    s := new Session(config, proxies);
    var invites, _ := Dedup.DedupInvites(inviteLines);
    if config.threads <= 0 {
      return s, false;
    }
    started := true;
    s.CheckAll(invites, lookup);
  }
}
