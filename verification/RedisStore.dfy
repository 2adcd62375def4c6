/**
 The updater's Redis store: argument building, the atomic script on the server, and Apply
 with its single reload and its classification of errors.
 */
module RedisStore {
  import opened Wrappers
  import opened GoTypes
  import opened Text
  import opened Redis
  import opened CounterScript
  import D = Decimal

  datatype Increment = Increment(key: string, delta: int64, expireAt: Time)

  datatype ArgumentError =
    | EmptyBatch
    | EmptyKey(index: nat)
    | DuplicateKey(index: nat)
    | NonPositiveDelta(index: nat)
    | ExpiryNotAfterEpoch(index: nat)

  datatype Command = Command(keys: seq<string>, argv: seq<string>)

  function Keys(increments: seq<Increment>): (keys: seq<string>)
    ensures |keys| == |increments|
    ensures forall i :: 0 <= i < |keys| ==> keys[i] == increments[i].key
  {
    seq(|increments|, i requires 0 <= i < |increments| => increments[i].key)
  }

  /** The first complaint about an increment, given the keys before it. */
  function Complaint(increments: seq<Increment>, i: nat): Option<ArgumentError>
    requires i < |increments|
  {
    if increments[i].key == "" then Some(EmptyKey(i))
    else if increments[i].key in Keys(increments[..i]) then Some(DuplicateKey(i))
    else if increments[i].delta <= 0 then Some(NonPositiveDelta(i))
    else if Unix(increments[i].expireAt) <= 0 then Some(ExpiryNotAfterEpoch(i))
    else None
  }

  /** Batches commandArguments lets through. */
  ghost predicate Acceptable(increments: seq<Increment>) {
    && increments != []
    && Distinct(Keys(increments))
    && forall i :: 0 <= i < |increments| ==>
         increments[i].key != "" && increments[i].delta > 0 && Unix(increments[i].expireAt) > 0
  }

  /** The KEYS and ARGV a batch becomes: the delta and the expiry second of every key, in order. */
  ghost predicate Encodes(command: Command, increments: seq<Increment>) {
    && command.keys == Keys(increments)
    && |command.argv| == 2 * |increments|
    && forall i :: 0 <= i < |increments| ==>
         && increments[i].delta > 0 && command.argv[2 * i] == D.Render(increments[i].delta)
         && Unix(increments[i].expireAt) > 0 && command.argv[2 * i + 1] == D.Render(Unix(increments[i].expireAt))
  }

  lemma NoComplaintMeansAcceptable(increments: seq<Increment>)
    requires increments != []
    ensures Acceptable(increments) <==> forall i :: 0 <= i < |increments| ==> Complaint(increments, i).None?
  {
    if forall i :: 0 <= i < |increments| ==> Complaint(increments, i).None? {
      forall i, j | 0 <= i < j < |increments|
        ensures Keys(increments)[i] != Keys(increments)[j]
      {
        assert Complaint(increments, j).None?;
        assert Keys(increments[..j])[i] == increments[i].key;
      }
      forall i | 0 <= i < |increments|
        ensures increments[i].key != "" && increments[i].delta > 0 && Unix(increments[i].expireAt) > 0
      {
        assert Complaint(increments, i).None?;
      }
    }
    if Acceptable(increments) {
      forall i | 0 <= i < |increments|
        ensures Complaint(increments, i).None?
      {}
    }
  }

  method CommandArguments(increments: seq<Increment>) returns (r: Result<Command, ArgumentError>)
    ensures r.Ok? <==> Acceptable(increments)
    ensures r.Ok? ==> Encodes(r.value, increments)
    ensures r.Err? && r.error != EmptyBatch ==>
              exists i :: 0 <= i < |increments| && Complaint(increments, i) == Some(r.error) &&
                          forall j :: 0 <= j < i ==> Complaint(increments, j).None?
    ensures r == Err(EmptyBatch) <==> increments == []
  {
    hide D.Render, Unix;
    if |increments| == 0 {
      return Err(EmptyBatch);
    }
    NoComplaintMeansAcceptable(increments);
    var keys, argv, seen := [], [], {};
    for i := 0 to |increments|
      invariant keys == Keys(increments[..i]) && |argv| == 2 * i
      invariant forall k :: k in seen <==> k in keys
      invariant forall j :: 0 <= j < i ==> Complaint(increments, j).None?
      invariant forall j :: 0 <= j < i ==>
        && increments[j].delta > 0 && argv[2 * j] == D.Render(increments[j].delta)
        && Unix(increments[j].expireAt) > 0 && argv[2 * j + 1] == D.Render(Unix(increments[j].expireAt))
    {
      var increment := increments[i];
      if increment.key == "" {
        assert Complaint(increments, i) == Some(EmptyKey(i));
        return Err(EmptyKey(i));
      }
      if increment.key in seen {
        assert Complaint(increments, i) == Some(DuplicateKey(i));
        return Err(DuplicateKey(i));
      }
      seen := seen + {increment.key};
      if increment.delta <= 0 {
        assert Complaint(increments, i) == Some(NonPositiveDelta(i));
        return Err(NonPositiveDelta(i));
      }
      if Unix(increment.expireAt) <= 0 {
        assert Complaint(increments, i) == Some(ExpiryNotAfterEpoch(i));
        return Err(ExpiryNotAfterEpoch(i));
      }
      assert Complaint(increments, i).None?;
      keys := keys + [increment.key];
      assert keys == Keys(increments[..i + 1]);
      argv := argv + [D.Render(increment.delta), D.Render(Unix(increment.expireAt))];
    }
    assert increments[..|increments|] == increments;
    r := Ok(Command(keys, argv));
  }

  /** What one EVALSHA comes back with: no such script, the script's reply, or a transport error. */
  datatype EvalReply = NoScript | Executed(reply: Reply) | TransportError

  /** One exchange between the client and the server: SCRIPT LOAD or EVALSHA, and what came back. */
  datatype Exchange =
    | Loaded(loaded: Option<string>)
    | Evaluated(digest: string, command: Command, answer: EvalReply)

  /** The server: its keyspace, its clock and, as ghosts, how often the counter script ran and what was exchanged. */
  class Server {
    var db: Db
    var now: int
    ghost var runs: nat
    ghost var log: seq<Exchange>

    constructor (db: Db, now: int)
      ensures this.db == db && this.now == now && runs == 0 && log == []
    {
      this.db, this.now, runs, log := db, now, 0, [];
    }

    method LuaAddUint(current: string, delta: string) returns (sum: Option<string>)
      requires D.ValidUint(current) && D.ValidUint(delta)
      ensures sum.None? <==> ValidUintValue(current).value + ValidUintValue(delta).value > D.MAX_INT64
    {
      sum := D.AddUint(current, delta);
    }

    /** The counter script, run without interleaving at one instant of the server's clock. */
    method RunCounterScript(keys: seq<string>, argv: seq<string>) returns (reply: Reply)
      requires |argv| == 2 * |keys|
      modifies this`db, this`runs
      ensures (reply, db) == Run(old(db), now, keys, argv)
      ensures runs == old(runs) + 1
    {
      hide D.ValidUint, Lookup, IncrBy, ExpireAt;
      runs := runs + 1;
      var i := 0;
      while i < |keys|
        invariant 0 <= i <= |keys| && db == old(db) && runs == old(runs) + 1
        invariant FirstRejection(db, now, keys, argv, 0) == FirstRejection(db, now, keys, argv, i)
      {
        var key, delta, expiry := keys[i], argv[2 * i], argv[2 * i + 1];
        if !D.ValidUint(delta) || delta == "0" {
          return Rejected(InvalidDelta);
        }
        if !D.ValidUint(expiry) {
          return Rejected(InvalidExpiry);
        }
        var current := "0";
        match Lookup(db, now, key) {
          case None =>
            ZeroIsValid();
          case Some(Str(text)) => current := text;
          case Some(Container) => return Rejected(WrongKeyType);
        }
        if !D.ValidUint(current) {
          return Rejected(MalformedCounter);
        }
        var sum := LuaAddUint(current, delta);
        if sum.None? {
          return Rejected(CounterOverflow);
        }
        i := i + 1;
      }
      i := 0;
      while i < |keys|
        invariant 0 <= i <= |keys| && runs == old(runs) + 1
        invariant FirstRejection(old(db), now, keys, argv, 0).None?
        invariant WriteFrom(db, now, keys, argv, i) == WriteFrom(old(db), now, keys, argv, 0)
      {
        var grown := IncrBy(db, now, keys[i], argv[2 * i]);
        if grown.Err? {
          return Raised(grown.error);
        }
        db := grown.value;
        var dated := ExpireAt(db, now, keys[i], argv[2 * i + 1]);
        if dated.Err? {
          return Raised(dated.error);
        }
        db := dated.value;
        i := i + 1;
      }
      return Done(|keys|);
    }

    method ScriptLoad() returns (sha: Option<string>)
      modifies this`log
      ensures sha.Some? ==> sha.value != ""
      ensures log == old(log) + [Loaded(sha)]
    {
      var reachable: bool := *;
      sha := if reachable then Some("counter-script-digest") else None;
      log := log + [Loaded(sha)];
    }

    /**
     One client attempt: time passes, then the script is missing, or it runs and its reply
     arrives, or the connection fails before or after the script ran.
     */
    method EvalSha(sha: string, keys: seq<string>, argv: seq<string>) returns (r: EvalReply)
      requires |argv| == 2 * |keys|
      modifies this
      ensures now >= old(now) && log == old(log) + [Evaluated(sha, Command(keys, argv), r)]
      ensures r.NoScript? ==> db == old(db) && runs == old(runs)
      ensures r.Executed? ==> (r.reply, db) == Run(old(db), now, keys, argv) && runs == old(runs) + 1
      ensures r.TransportError? ==>
                || (db == old(db) && runs == old(runs))
                || (db == Run(old(db), now, keys, argv).1 && runs == old(runs) + 1)
    {
      var delay: int := *;
      if delay > 0 {
        now := now + delay;
      }
      var scriptKnown: bool, requestArrives: bool, replyArrives: bool := *, *, *;
      r := TransportError;
      if requestArrives && scriptKnown {
        var reply := RunCounterScript(keys, argv);
        if replyArrives {
          r := Executed(reply);
        }
      } else if requestArrives {
        r := NoScript;
      }
      log := log + [Evaluated(sha, Command(keys, argv), r)];
    }
  }

  lemma ZeroIsValid()
    ensures D.ValidUint("0") && ValidUintValue("0").value == 0
  {
    assert D.Render(0) == "0";
    D.RenderIsCanonical(0);
  }

  datatype ApplyError =
    | BadArguments(why: ArgumentError)
    | LoadFailed
    | UnavailableAfterReload
    | BatchRejected(rejection: Rejection)
    | Ambiguous

  /** What Apply may have done, seen from outside, for each way it can answer. */
  ghost predicate ApplyEffect(r: Result<(), ApplyError>, before: Db, after: Db, now: int, increments: seq<Increment>) {
    match r
    case Ok(_) => exists c: Command :: Encodes(c, increments) && Run(before, now, c.keys, c.argv) == (Done(|c.keys|), after)
    case Err(Ambiguous) =>
      after == before || exists c: Command :: Encodes(c, increments) && Run(before, now, c.keys, c.argv).1 == after
    case Err(_) => after == before
  }

  // ---- What an answer says about the exchanges that led to it ----

  /** EVALSHA of the digest with the whole batch. */
  ghost predicate IsAttempt(x: Exchange, digest: string, increments: seq<Increment>) {
    x.Evaluated? && x.digest == digest && Encodes(x.command, increments)
  }

  /** One attempt; only after a missing script one reload, and only after a good one a second attempt. */
  ghost predicate Attempted(talk: seq<Exchange>, digest: string, increments: seq<Increment>) {
    && talk != [] && IsAttempt(talk[0], digest, increments)
    && if !talk[0].answer.NoScript? then |talk| == 1
       else
         && |talk| >= 2 && talk[1].Loaded?
         && if talk[1].loaded.None? then |talk| == 2 else |talk| == 3 && IsAttempt(talk[2], talk[1].loaded.value, increments)
  }

  /** All exchanges of one Apply that finds a digest in its cache or an empty one. */
  ghost predicate Conversed(talk: seq<Exchange>, cached: string, increments: seq<Increment>) {
    if cached != "" then Attempted(talk, cached, increments)
    else
      && talk != [] && talk[0].Loaded?
      && if talk[0].loaded.None? then |talk| == 1 else Attempted(talk[1..], talk[0].loaded.value, increments)
  }

  /** Each answer is given for one way the last exchange can end, and always for that one. */
  ghost predicate TellsOf(r: Result<(), ApplyError>, last: Exchange) {
    && (r.Ok? <==> last.Evaluated? && last.answer.Executed? && last.answer.reply.Done?)
    && (forall why :: r == Err(BatchRejected(why)) <==> last.Evaluated? && last.answer == Executed(Rejected(why)))
    && (r == Err(Ambiguous) <==>
          last.Evaluated? && (last.answer.TransportError? || (last.answer.Executed? && last.answer.reply.Raised?)))
    && (r == Err(UnavailableAfterReload) <==> last.Evaluated? && last.answer.NoScript?)
    && (r == Err(LoadFailed) <==> last == Loaded(None))
  }

  /** A batch that can be encoded is sent, unless loading fails; any other never leaves the client. */
  ghost predicate Answers(r: Result<(), ApplyError>, talk: seq<Exchange>, cached: string, increments: seq<Increment>) {
    if Acceptable(increments) then
      Conversed(talk, cached, increments) && talk != [] && TellsOf(r, talk[|talk| - 1])
    else
      talk == [] && r.Err? && r.error.BadArguments?
  }

  class Store {
    const server: Server
    var sha: string

    constructor (server: Server)
      ensures this.server == server && sha == ""
    {
      this.server, sha := server, "";
    }

    method Load() returns (ok: bool)
      modifies this, server`log
      ensures ok ==> sha != "" && server.log == old(server.log) + [Loaded(Some(sha))]
      ensures !ok ==> sha == old(sha) && server.log == old(server.log) + [Loaded(None)]
    {
      var loaded := server.ScriptLoad();
      if loaded.Some? {
        sha := loaded.value;
      }
      ok := loaded.Some?;
    }

    /**
     At most one run of the script, on every path. Success is answered exactly when the reply
     that the script is done arrived; an error that is not ambiguous means nothing was written.
     */
    method Apply(increments: seq<Increment>) returns (r: Result<(), ApplyError>)
      modifies this, server
      ensures server.now >= old(server.now)
      ensures server.runs <= old(server.runs) + 1
      ensures r.Ok? ==> server.runs == old(server.runs) + 1
      ensures r.Err? && r.error.BadArguments? <==> !Acceptable(increments)
      ensures old(server.log) <= server.log && Answers(r, server.log[|old(server.log)|..], old(sha), increments)
      ensures ApplyEffect(r, old(server.db), server.db, server.now, increments)
    {
      hide Run, Encodes, Acceptable, Attempted, TellsOf;
      var arguments := CommandArguments(increments);
      if arguments.Err? {
        return Err(BadArguments(arguments.error));
      }
      ghost var before := server.log;
      if sha == "" {
        var ok := Load();
        if !ok {
          LoadFailureTold();
          return Err(LoadFailed);
        }
      }
      ghost var loaded := server.log;
      r := Evaluate(arguments.value, increments);
      assert server.log[|before|..] == loaded[|before|..] + server.log[|loaded|..];
    }

    /** The part of Apply from a known digest on. */
    method Evaluate(command: Command, ghost increments: seq<Increment>) returns (r: Result<(), ApplyError>)
      requires Encodes(command, increments) && sha != ""
      modifies this, server
      ensures server.now >= old(server.now)
      ensures server.runs <= old(server.runs) + 1
      ensures r.Ok? ==> server.runs == old(server.runs) + 1
      ensures old(server.log) < server.log && Attempted(server.log[|old(server.log)|..], old(sha), increments)
      ensures TellsOf(r, server.log[|server.log| - 1]) && !(r.Err? && r.error.BadArguments?)
      ensures ApplyEffect(r, old(server.db), server.db, server.now, increments)
    {
      hide Run, Encodes;
      EncodedInPairs(command, increments);
      var answer := server.EvalSha(sha, command.keys, command.argv);
      if answer.NoScript? {
        var ok := Load();
        if !ok {
          return Err(LoadFailed);
        }
        answer := server.EvalSha(sha, command.keys, command.argv);
      }
      match answer {
        case Executed(Done(n)) =>
          assert n == |command.keys| by { DoneCountsKeys(old(server.db), server.now, command.keys, command.argv); }
          return Ok(());
        case NoScript => return Err(UnavailableAfterReload);
        case Executed(Rejected(why)) =>
          RejectedChangesNothing(old(server.db), server.now, command.keys, command.argv);
          return Err(BatchRejected(why));
        case Executed(Raised(_)) => return Err(Ambiguous);
        case TransportError => return Err(Ambiguous);
      }
    }
  }

  lemma LoadFailureTold()
    ensures TellsOf(Err(LoadFailed), Loaded(None))
  {}

  lemma EncodedInPairs(command: Command, increments: seq<Increment>)
    requires Encodes(command, increments)
    ensures |command.argv| == 2 * |command.keys|
  {}

  lemma DoneCountsKeys(db: Db, now: int, keys: seq<string>, argv: seq<string>)
    requires |argv| == 2 * |keys| && Run(db, now, keys, argv).0.Done?
    ensures Run(db, now, keys, argv).0 == Done(|keys|)
  {}

  lemma RejectedChangesNothing(db: Db, now: int, keys: seq<string>, argv: seq<string>)
    requires |argv| == 2 * |keys| && Run(db, now, keys, argv).0.Rejected?
    ensures Run(db, now, keys, argv).1 == db
  {}

  /** A batch Apply accepts is encoded in only one way. */
  lemma EncodingUnique(a: Command, b: Command, increments: seq<Increment>)
    requires Encodes(a, increments) && Encodes(b, increments)
    ensures a == b
  {
    forall k | 0 <= k < |a.argv|
      ensures a.argv[k] == b.argv[k]
    {
      var i := k / 2;
      assert k == 2 * i || k == 2 * i + 1;
      assert increments[i].delta > 0 && Unix(increments[i].expireAt) > 0;
    }
  }
}
