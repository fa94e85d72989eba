/**
 The operator's form sessions: a table of at most 32 tokens that expire half an hour after
 their last use. Times are seconds on a monotonic clock.
 */
module OperatorSessions {
  import opened Wrappers

  const LIFETIME := 1800
  const CAPACITY := 32

  /** The digest of a cookie, taken to be injective. */
  datatype Digest = Digest(cookie: string)

  datatype Session = Session(csrf: string, expires: nat)

  type Table = map<Digest, Session>

  /** A request and what the generator would draw for it, when it can. */
  datatype Request = Request(cookie: Option<string>, create: bool, now: nat, drawn: Option<(string, string)>)

  datatype Status = Forbidden | TooManyRequests | InternalError

  datatype Context = Context(csrf: string, cookie: Option<string>)

  function Purged(sessions: Table, now: nat): Table {
    map d | d in sessions && sessions[d].expires > now :: sessions[d]
  }

  /** Serving one request. */
  function Served(sessions: Table, r: Request): (Table, Result<Context, Status>) {
    var live := Purged(sessions, r.now);
    if r.cookie.Some? && Digest(r.cookie.value) in live then
      var d := Digest(r.cookie.value);
      (live[d := live[d].(expires := r.now + LIFETIME)], Ok(Context(live[d].csrf, None)))
    else if !r.create then (live, Err(Forbidden))
    else if |live| >= CAPACITY then (live, Err(TooManyRequests))
    else
      match r.drawn
      case None => (live, Err(InternalError))
      case Some((cookie, csrf)) =>
        (live[Digest(cookie) := Session(csrf, r.now + LIFETIME)], Ok(Context(csrf, Some(cookie))))
  }

  class Sessions {
    var sessions: Table

    constructor ()
      ensures sessions == map[]
    {
      sessions := map[];
    }

    method Serve(r: Request) returns (answer: Result<Context, Status>)
      modifies this
      ensures (sessions, answer) == Served(old(sessions), r)
    {
      sessions := Purged(sessions, r.now);
      if r.cookie.Some? {
        var hash := Digest(r.cookie.value);
        if hash in sessions {
          sessions := sessions[hash := sessions[hash].(expires := r.now + LIFETIME)];
          return Ok(Context(sessions[hash].csrf, None));
        }
      }
      if !r.create { return Err(Forbidden); }
      if |sessions| >= CAPACITY { return Err(TooManyRequests); }
      if r.drawn.None? { return Err(InternalError); }
      var (cookie, csrf) := r.drawn.value;
      sessions := sessions[Digest(cookie) := Session(csrf, r.now + LIFETIME)];
      return Ok(Context(csrf, Some(cookie)));
    }
  }

  // ----------------------------------------------------------------------
  // Histories
  // ----------------------------------------------------------------------

  /** The table after a history of requests. */
  function After(history: seq<Request>): Table {
    if history == [] then map[]
    else Served(After(history[..|history| - 1]), history[|history| - 1]).0
  }

  function Answer(history: seq<Request>, k: nat): Result<Context, Status>
    requires k < |history|
  {
    Served(After(history[..k]), history[k]).1
  }

  /** Time does not run backwards, and no cookie is drawn twice. */
  ghost predicate Regular(history: seq<Request>) {
    && (forall i, j :: 0 <= i < j < |history| ==> history[i].now <= history[j].now)
    && (forall i, j :: 0 <= i < j < |history| && history[i].drawn.Some? && history[j].drawn.Some? ==>
          history[i].drawn.value.0 != history[j].drawn.value.0)
  }

  /** Request `i` was answered with a new cookie. */
  ghost predicate Issues(history: seq<Request>, i: nat)
    requires i < |history|
  {
    Answer(history, i).Ok? && Answer(history, i).value.cookie.Some?
  }

  ghost function CookieOf(history: seq<Request>, i: nat): string
    requires i < |history| && history[i].drawn.Some?
  {
    history[i].drawn.value.0
  }

  ghost predicate Presents(history: seq<Request>, i: nat, j: nat)
    requires i < |history| && j < |history| && history[i].drawn.Some?
  {
    history[j].cookie == Some(CookieOf(history, i))
  }

  /** The last time before request `n` that the cookie of request `i` was shown or issued. */
  ghost function LastUse(history: seq<Request>, i: nat, n: nat): nat
    requires i < n <= |history| && history[i].drawn.Some?
  {
    if n == i + 1 then history[i].now
    else if Presents(history, i, n - 1) then history[n - 1].now
    else LastUse(history, i, n - 1)
  }

  /** Before request `n`, the cookie of request `i` was never left unused for half an hour
      between one use and the next. */
  ghost predicate KeptUp(history: seq<Request>, i: nat, n: nat)
    requires i < n <= |history| && history[i].drawn.Some?
  {
    forall j :: i < j < n && Presents(history, i, j) ==> history[j].now < LastUse(history, i, j) + LIFETIME
  }

  /** The session of request `i` is open when request `k` comes. */
  ghost predicate Open(history: seq<Request>, i: nat, k: nat)
    requires i < k < |history|
  {
    && history[i].drawn.Some? && Issues(history, i) && KeptUp(history, i, k)
    && history[k].now < LastUse(history, i, k) + LIFETIME
  }

  // ----------------------------------------------------------------------
  // What the table holds
  // ----------------------------------------------------------------------

  lemma IssuedWasDrawn(history: seq<Request>, i: nat)
    requires i < |history| && Issues(history, i)
    ensures history[i].drawn.Some?
    ensures Answer(history, i).value == Context(history[i].drawn.value.1, Some(CookieOf(history, i)))
  {
  }

  /** The entry of request `i` after the first `n` requests. */
  ghost predicate Entry(history: seq<Request>, i: nat, n: nat)
    requires i < n <= |history| && history[i].drawn.Some?
  {
    var table, d := After(history[..n]), Digest(CookieOf(history, i));
    && (d in table <==> KeptUp(history, i, n) && history[n - 1].now < LastUse(history, i, n) + LIFETIME)
    && (d in table ==> table[d] == Session(history[i].drawn.value.1, LastUse(history, i, n) + LIFETIME))
  }

  lemma AfterSnoc(history: seq<Request>, n: nat)
    requires n < |history|
    ensures After(history[..n + 1]) == Served(After(history[..n]), history[n]).0
  {
    assert history[..n + 1][..n] == history[..n];
  }

  lemma EntryStarts(history: seq<Request>, i: nat)
    requires i < |history| && Issues(history, i)
    ensures history[i].drawn.Some? && Entry(history, i, i + 1)
  {
    AfterSnoc(history, i);
    IssuedWasDrawn(history, i);
  }

  lemma EntryStays(history: seq<Request>, i: nat, n: nat)
    requires i < n <= |history| && Regular(history) && history[i].drawn.Some? && Entry(history, i, i + 1)
    ensures Entry(history, i, n)
  {
    EntryKept(history, i);
    Reaches(Kept(history, i), i + 1, n);
  }

  ghost function Kept(history: seq<Request>, i: nat): nat -> bool {
    (k: nat) => i < k <= |history| && history[i].drawn.Some? && Entry(history, i, k)
  }

  lemma EntryKept(history: seq<Request>, i: nat)
    requires i < |history| && Regular(history)
    ensures forall k: nat :: k < |history| && Kept(history, i)(k) ==> Kept(history, i)(k + 1)
  {
    forall k: nat | k < |history| && Kept(history, i)(k)
      ensures Kept(history, i)(k + 1)
    {
      EntryStep(history, i, k);
    }
  }

  lemma {:induction false} Reaches(held: nat -> bool, first: nat, last: nat)
    requires first <= last && held(first) && forall k: nat :: first <= k < last && held(k) ==> held(k + 1)
    ensures held(last)
    decreases last
  {
    if last > first { Reaches(held, first, last - 1); }
  }

  lemma EntryHolds(history: seq<Request>, i: nat, n: nat)
    requires i < n <= |history| && Regular(history) && Issues(history, i)
    ensures history[i].drawn.Some? && Entry(history, i, n)
  {
    EntryStarts(history, i);
    EntryStays(history, i, n);
  }

  lemma EntryStep(history: seq<Request>, i: nat, n: nat)
    requires i < n < |history| && Regular(history) && history[i].drawn.Some? && Entry(history, i, n)
    ensures Entry(history, i, n + 1)
  {
    AfterSnoc(history, n);
    var d, r := Digest(CookieOf(history, i)), history[n];
    var live := Purged(After(history[..n]), r.now);
    assert history[n - 1].now <= r.now;
    assert d in live <==> KeptUp(history, i, n) && r.now < LastUse(history, i, n) + LIFETIME;
    KeptUpSnoc(history, i, n);
    assert r.drawn.Some? ==> CookieOf(history, n) != CookieOf(history, i);
  }

  lemma KeptUpSnoc(history: seq<Request>, i: nat, n: nat)
    requires i < n < |history| && history[i].drawn.Some?
    ensures KeptUp(history, i, n + 1) <==>
            KeptUp(history, i, n) && (Presents(history, i, n) ==> history[n].now < LastUse(history, i, n) + LIFETIME)
  {
  }

  /** Every entry was issued by one of the requests. */
  lemma {:induction false} EntryIssued(history: seq<Request>, n: nat, d: Digest) returns (i: nat)
    requires n <= |history| && d in After(history[..n])
    ensures i < n && Issues(history, i) && history[i].drawn.Some? && d == Digest(CookieOf(history, i))
  {
    AfterSnoc(history, n - 1);
    if d in After(history[..n - 1]) {
      i := EntryIssued(history, n - 1, d);
    } else {
      i := n - 1;
      AddedIsIssued(After(history[..i]), history[i], d);
    }
  }

  lemma AddedIsIssued(table: Table, r: Request, d: Digest)
    requires d !in table && d in Served(table, r).0
    ensures Served(table, r).1.Ok? && r.drawn.Some? && d == Digest(r.drawn.value.0)
    ensures Served(table, r).1.value.cookie == Some(d.cookie)
  {
  }

  /** The live part of the table when request `k` comes: the open sessions. */
  lemma LiveIsOpen(history: seq<Request>, k: nat, i: nat)
    requires i < k < |history| && Regular(history) && Issues(history, i)
    ensures history[i].drawn.Some?
    ensures Digest(CookieOf(history, i)) in Purged(After(history[..k]), history[k].now) <==> Open(history, i, k)
    ensures Open(history, i, k) ==>
      Purged(After(history[..k]), history[k].now)[Digest(CookieOf(history, i))].csrf == history[i].drawn.value.1
  {
    EntryHolds(history, i, k);
    assert history[k - 1].now <= history[k].now;
  }

  // ----------------------------------------------------------------------
  // Acceptance
  // ----------------------------------------------------------------------

  /** A request that may not create a session is accepted exactly when it shows a cookie
      that was issued and has been kept in use. */
  lemma AcceptedExactly(history: seq<Request>, k: nat)
    requires k < |history| && Regular(history) && !history[k].create
    ensures Answer(history, k).Ok? <==>
            exists i :: 0 <= i < k && Open(history, i, k) && history[k].cookie == Some(CookieOf(history, i))
  {
    var live := Purged(After(history[..k]), history[k].now);
    if Answer(history, k).Ok? {
      var i := EntryIssued(history, k, Digest(history[k].cookie.value));
      LiveIsOpen(history, k, i);
      assert Open(history, i, k);
    }
    forall i | 0 <= i < k && Open(history, i, k) && history[k].cookie == Some(CookieOf(history, i))
      ensures Answer(history, k).Ok?
    {
      LiveIsOpen(history, k, i);
    }
  }

  /** Whoever shows the cookie of an open session gets the form token that came with it, and
      no new cookie: the token never changes while the session lives. */
  lemma TokenIsConstant(history: seq<Request>, i: nat, k: nat)
    requires i < k < |history| && Regular(history) && Issues(history, i) && history[i].drawn.Some?
    requires history[k].cookie == Some(CookieOf(history, i))
    ensures Answer(history, i).value.csrf == history[i].drawn.value.1
    ensures Open(history, i, k) ==> Answer(history, k) == Ok(Context(Answer(history, i).value.csrf, None))
    ensures !Open(history, i, k) ==> !(Answer(history, k).Ok? && Answer(history, k).value.cookie.None?)
  {
    LiveIsOpen(history, k, i);
    IssuedWasDrawn(history, i);
  }

  // ----------------------------------------------------------------------
  // Capacity
  // ----------------------------------------------------------------------

  lemma PurgedIsSmaller(sessions: Table, now: nat)
    ensures |Purged(sessions, now)| <= |sessions|
  {
    assert Purged(sessions, now).Keys <= sessions.Keys;
    SubsetSize(Purged(sessions, now).Keys, sessions.Keys);
  }

  lemma {:induction false} SubsetSize<T>(a: set<T>, b: set<T>)
    requires a <= b
    ensures |a| <= |b|
  {
    if a != {} {
      var x :| x in a;
      SubsetSize(a - {x}, b - {x});
    }
  }

  /** There are never more than 32 sessions. */
  lemma {:induction false} NeverOverCapacity(history: seq<Request>)
    ensures |After(history)| <= CAPACITY
  {
    if history != [] {
      var front, r := history[..|history| - 1], history[|history| - 1];
      NeverOverCapacity(front);
      PurgedIsSmaller(After(front), r.now);
      var live := Purged(After(front), r.now);
      if r.cookie.Some? && Digest(r.cookie.value) in live {
        var d := Digest(r.cookie.value);
        assert live[d := live[d].(expires := r.now + LIFETIME)].Keys == live.Keys;
      } else if r.drawn.Some? {
        var d := Digest(r.drawn.value.0);
        assert live[d := Session(r.drawn.value.1, r.now + LIFETIME)].Keys == live.Keys + {d};
      }
    }
  }

  /** The requests whose sessions are open when request `k` comes. */
  ghost function OpenSessions(history: seq<Request>, k: nat): set<nat>
    requires k < |history|
  {
    set i: nat | i < k && Open(history, i, k)
  }

  ghost function Digests(history: seq<Request>, open: set<nat>): set<Digest>
    requires forall i <- open :: i < |history| && history[i].drawn.Some?
  {
    set i <- open :: Digest(CookieOf(history, i))
  }

  lemma {:induction false} DigestsCount(history: seq<Request>, open: set<nat>)
    requires Regular(history) && forall i <- open :: i < |history| && history[i].drawn.Some?
    ensures |Digests(history, open)| == |open|
  {
    if open != {} {
      var i :| i in open;
      DigestsCount(history, open - {i});
      var d := Digest(CookieOf(history, i));
      assert Digests(history, open) == Digests(history, open - {i}) + {d};
      forall j | j in open - {i}
        ensures Digest(CookieOf(history, j)) != d
      {
        assert i < j || j < i;
      }
    }
  }

  lemma LiveDigest(history: seq<Request>, k: nat, d: Digest)
    requires k < |history| && Regular(history)
    ensures d in Purged(After(history[..k]), history[k].now) <==> d in Digests(history, OpenSessions(history, k))
  {
    var open := OpenSessions(history, k);
    if d in Purged(After(history[..k]), history[k].now) {
      var i := EntryIssued(history, k, d);
      LiveIsOpen(history, k, i);
      assert i in open;
    }
    if d in Digests(history, open) {
      var i :| i in open && d == Digest(CookieOf(history, i));
      LiveIsOpen(history, k, i);
    }
  }

  lemma LiveCount(history: seq<Request>, k: nat)
    requires k < |history| && Regular(history)
    ensures |Purged(After(history[..k]), history[k].now)| == |OpenSessions(history, k)|
  {
    var live, open := Purged(After(history[..k]), history[k].now), OpenSessions(history, k);
    forall d
      ensures d in live.Keys <==> d in Digests(history, open)
    {
      LiveDigest(history, k, d);
    }
    assert live.Keys == Digests(history, open);
    DigestsCount(history, open);
  }

  /** A request that may create a session, and shows no open one, gets a new one exactly when
      fewer than 32 are open and the generator works. */
  lemma CreatedExactly(history: seq<Request>, k: nat)
    requires k < |history| && Regular(history) && history[k].create
    requires forall i :: 0 <= i < k && Open(history, i, k) ==> history[k].cookie != Some(CookieOf(history, i))
    ensures Issues(history, k) <==> |OpenSessions(history, k)| < CAPACITY && history[k].drawn.Some?
    ensures !Issues(history, k) ==>
      Answer(history, k) == Err(if |OpenSessions(history, k)| >= CAPACITY then TooManyRequests else InternalError)
  {
    LiveCount(history, k);
    var live := Purged(After(history[..k]), history[k].now);
    if history[k].cookie.Some? && Digest(history[k].cookie.value) in live {
      var i := EntryIssued(history, k, Digest(history[k].cookie.value));
      LiveIsOpen(history, k, i);
    }
  }
}
