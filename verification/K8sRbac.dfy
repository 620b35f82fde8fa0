/**
 The Kubernetes-RBAC authorizer: a cached token review, then a cached access review, for
 any number of calls interleaved at their awaits. Replies of the apiserver are inputs.
 A token stands for its hash; an absent token or user name is the empty string.
 */
module K8sRbac {
  import opened Options
  import opened BoundedTtl

  const TOKEN_REVIEW_TTL := 30_000
  const SAR_TTL := 10_000
  const MAX_CACHE_ENTRIES: nat := 1000

  datatype Review = Unauthenticated | Subject(user: string, groups: seq<string>)

  /** A reply to a token review: the request failed, or a status with the fields read from the body. */
  datatype ReviewReply = ReviewFailed | ReviewHttp(status: int, authenticated: bool, user: string, groups: seq<string>)

  datatype AccessReply = AccessFailed | AccessHttp(status: int, allowed: bool)

  predicate Ok(status: int) { 200 <= status < 300 }

  predicate ReviewConfirmed(r: ReviewReply) { r.ReviewHttp? && Ok(r.status) }

  predicate AccessConfirmed(r: AccessReply) { r.AccessHttp? && Ok(r.status) }

  function ReviewOf(r: ReviewReply): Review {
    if ReviewConfirmed(r) && r.authenticated && r.user != "" then Subject(r.user, r.groups) else Unauthenticated
  }

  predicate Allows(r: AccessReply) { AccessConfirmed(r) && r.allowed }

  // ---------------------------------------------------------------------------
  // What the replies say, field by field
  // ---------------------------------------------------------------------------

  /** A 2xx reply that the token is authenticated and belongs to this user. */
  ghost predicate SaysSubject(r: ReviewReply, user: string, groups: seq<string>) {
    r.ReviewHttp? && 200 <= r.status < 300 && r.authenticated && r.user == user && r.groups == groups && user != ""
  }

  /** A 2xx reply that it is not authenticated, or names nobody. */
  ghost predicate SaysNobody(r: ReviewReply) {
    r.ReviewHttp? && 200 <= r.status < 300 && (!r.authenticated || r.user == "")
  }

  ghost predicate Says(r: ReviewReply, review: Review) {
    match review
    case Unauthenticated => SaysNobody(r)
    case Subject(user, groups) => SaysSubject(r, user, groups)
  }

  ghost predicate SaysAllowed(r: AccessReply, allowed: bool) {
    r.AccessHttp? && 200 <= r.status < 300 && r.allowed == allowed
  }

  /** Whatever is not a 2xx reply says nothing, and reads as a denial. */
  lemma RepliesMean(r: ReviewReply, a: AccessReply)
    ensures ReviewConfirmed(r) ==> Says(r, ReviewOf(r))
    ensures !ReviewConfirmed(r) ==> ReviewOf(r) == Unauthenticated && forall v :: !Says(r, v)
    ensures AccessConfirmed(a) ==> SaysAllowed(a, Allows(a))
    ensures !AccessConfirmed(a) ==> !Allows(a) && forall b :: !SaysAllowed(a, b)
  {
  }

  type ReviewCache = seq<Item<string, Review>>
  type SarCache = seq<Item<(string, string), bool>>

  /** Only a confirmed answer is cached. */
  function ReviewsAfter(s: ReviewCache, token: string, r: ReviewReply, now: int): ReviewCache {
    if ReviewConfirmed(r) then AfterSet(s, TOKEN_REVIEW_TTL, MAX_CACHE_ENTRIES, token, ReviewOf(r), now) else s
  }

  function SarsAfter(s: SarCache, token: string, verb: string, r: AccessReply, now: int): SarCache {
    if AccessConfirmed(r) then AfterSet(s, SAR_TTL, MAX_CACHE_ENTRIES, (token, verb), Allows(r), now) else s
  }

  /**
   The key of the access cache in the source's own form: a 64-character digest, a bar, the
   verb. It determines both, which is why the caches below are keyed by the pair.
   */
  function SarKey(digest: string, verb: string): string { digest + "|" + verb }

  lemma SarKeyInjective(d: string, v: string, d': string, v': string)
    requires |d| == |d'| == 64 && SarKey(d, v) == SarKey(d', v')
    ensures d == d' && v == v'
  {
    assert SarKey(d, v)[..64] == d && SarKey(d, v)[65..] == v;
    assert SarKey(d', v')[..64] == d' && SarKey(d', v')[65..] == v';
  }

  // ---------------------------------------------------------------------------
  // The two cached requests, cut at their awaits
  // ---------------------------------------------------------------------------

  class Authorizer {
    const reviews: TtlMap<string, Review>
    const sars: TtlMap<(string, string), bool>

    ghost predicate Valid()
      reads this, reviews, sars
    {
      && reviews.Valid() && reviews.ttl == TOKEN_REVIEW_TTL && reviews.max == MAX_CACHE_ENTRIES
      && sars.Valid() && sars.ttl == SAR_TTL && sars.max == MAX_CACHE_ENTRIES
    }

    constructor ()
      ensures Valid() && reviews.store == [] && sars.store == []
    {
      reviews := new TtlMap(TOKEN_REVIEW_TTL, MAX_CACHE_ENTRIES);
      sars := new TtlMap(SAR_TTL, MAX_CACHE_ENTRIES);
    }

    /** None when a request has to be posted. */
    method BeginReview(token: string, now: int) returns (cached: Option<Review>)
      requires Valid()
      modifies reviews
      ensures Valid() && reviews.store == AfterGet(old(reviews.store), token, now)
      ensures cached == Lookup(old(reviews.store), token, now)
    {
      cached := reviews.Get(token, now);
    }

    method ReviewReplied(token: string, reply: ReviewReply, now: int) returns (review: Review)
      requires Valid()
      modifies reviews
      ensures Valid() && reviews.store == ReviewsAfter(old(reviews.store), token, reply, now)
      ensures review == ReviewOf(reply)
      ensures review.Subject? ==> SaysSubject(reply, review.user, review.groups)
      ensures reviews.store == old(reviews.store) ||
        (Says(reply, review) && reviews.store == AfterSet(old(reviews.store), 30_000, 1000, token, review, now))
      ensures reply.ReviewHttp? && 200 <= reply.status < 300 ==> Says(reply, review)
    {
      if reply.ReviewFailed? { return Unauthenticated; }
      if reply.status < 200 || reply.status >= 300 { return Unauthenticated; }
      if !reply.authenticated || reply.user == "" {
        review := Unauthenticated;
        reviews.Set(token, review, now);
        return;
      }
      review := Subject(reply.user, reply.groups);
      reviews.Set(token, review, now);
    }

    method BeginAccess(token: string, verb: string, now: int) returns (cached: Option<bool>)
      requires Valid()
      modifies sars
      ensures Valid() && sars.store == AfterGet(old(sars.store), (token, verb), now)
      ensures cached == Lookup(old(sars.store), (token, verb), now)
    {
      cached := sars.Get((token, verb), now);
    }

    method AccessReplied(token: string, verb: string, reply: AccessReply, now: int) returns (allowed: bool)
      requires Valid()
      modifies sars
      ensures Valid() && sars.store == SarsAfter(old(sars.store), token, verb, reply, now)
      ensures allowed <==> SaysAllowed(reply, true)
      ensures sars.store == if reply.AccessHttp? && 200 <= reply.status < 300
        then AfterSet(old(sars.store), 10_000, 1000, (token, verb), reply.allowed, now) else old(sars.store)
    {
      if reply.AccessFailed? { return false; }
      if reply.status < 200 || reply.status >= 300 { return false; }
      allowed := reply.allowed;
      sars.Set((token, verb), allowed, now);
    }
  }

  // ---------------------------------------------------------------------------
  // Interleaved calls
  // ---------------------------------------------------------------------------

  datatype Stage = AwaitReview | Reviewed(review: Review) | AwaitAccess(subject: Review) | Done(granted: bool)

  /** One call of authorize; `reviewedAt` is when it got its review, `clean` that no request of its own failed. */
  datatype Call = Call(token: string, verb: string, stage: Stage, reviewedAt: int, clean: bool)

  /** The apiserver's replies, as received. */
  datatype Verdict = Verdict(token: string, reply: ReviewReply, at: int)
  datatype Answer = Answer(token: string, verb: string, subject: Review, reviewedAt: int, reply: AccessReply, at: int)

  datatype World = World(
    reviews: ReviewCache, sars: SarCache, calls: map<nat, Call>,
    verdicts: set<Verdict>, answers: set<Answer>, now: int)

  datatype Event =
    | Tick(now: int)
    | Authorize(id: nat, token: string, verb: string)
    | GotReview(id: nat, review: ReviewReply)
    | Resume(id: nat)
    | GotAccess(id: nat, access: AccessReply)

  function Init(now: int): World { World([], [], map[], {}, {}, now) }


  function Begin(w: World, id: nat, token: string, verb: string): World {
    if token == "" then w.(calls := w.calls[id := Call(token, verb, Done(false), w.now, true)]) else
    var stage := match Lookup(w.reviews, token, w.now) case Some(r) => Reviewed(r) case None => AwaitReview;
    w.(calls := w.calls[id := Call(token, verb, stage, w.now, true)],
       reviews := AfterGet(w.reviews, token, w.now))
  }

  function TakeReview(w: World, id: nat, r: ReviewReply): World
    requires id in w.calls
  {
    var c := w.calls[id];
    w.(reviews := ReviewsAfter(w.reviews, c.token, r, w.now),
       verdicts := w.verdicts + {Verdict(c.token, r, w.now)},
       calls := w.calls[id := c.(stage := Reviewed(ReviewOf(r)), reviewedAt := w.now, clean := c.clean && ReviewConfirmed(r))])
  }

  function GoOn(w: World, id: nat): World
    requires id in w.calls && w.calls[id].stage.Reviewed?
  {
    var c := w.calls[id];
    if c.stage.review.Unauthenticated? then w.(calls := w.calls[id := c.(stage := Done(false))]) else
    var stage := match Lookup(w.sars, (c.token, c.verb), w.now)
                 case Some(b) => Done(b) case None => AwaitAccess(c.stage.review);
    w.(calls := w.calls[id := c.(stage := stage)], sars := AfterGet(w.sars, (c.token, c.verb), w.now))
  }

  function TakeAccess(w: World, id: nat, r: AccessReply): World
    requires id in w.calls && w.calls[id].stage.AwaitAccess?
  {
    var c := w.calls[id];
    w.(sars := SarsAfter(w.sars, c.token, c.verb, r, w.now),
       answers := w.answers + {Answer(c.token, c.verb, c.stage.subject, c.reviewedAt, r, w.now)},
       calls := w.calls[id := c.(stage := Done(Allows(r)), clean := c.clean && AccessConfirmed(r))])
  }

  function Step(w: World, e: Event): World {
    match e
    case Tick(now) => w.(now := now)
    case Authorize(id, token, verb) => if id in w.calls then w else Begin(w, id, token, verb)
    case GotReview(id, r) => if id in w.calls && w.calls[id].stage.AwaitReview? then TakeReview(w, id, r) else w
    case Resume(id) => if id in w.calls && w.calls[id].stage.Reviewed? then GoOn(w, id) else w
    case GotAccess(id, r) => if id in w.calls && w.calls[id].stage.AwaitAccess? then TakeAccess(w, id, r) else w
  }

  function Run(w: World, events: seq<Event>): World {
    if events == [] then w else Step(Run(w, events[..|events| - 1]), events[|events| - 1])
  }

  // ---------------------------------------------------------------------------
  // Evidence
  // ---------------------------------------------------------------------------

  /** A reply received at `at` says that the token is `review`. */
  ghost predicate ReviewedAt(verdicts: set<Verdict>, token: string, review: Review, at: int) {
    exists v :: v in verdicts && v.token == token && v.at == at && Says(v.reply, review)
  }

  /** A 2xx reply less than 30 s before `asOf` named this user for the token. */
  ghost predicate Resolved(verdicts: set<Verdict>, token: string, subject: Review, asOf: int) {
    exists v :: v in verdicts && v.token == token && asOf - v.at < 30_000 && Says(v.reply, subject)
  }

  /** A 2xx reply received at `at` carried this value of `allowed` for the token and verb. */
  ghost predicate Answered(answers: set<Answer>, token: string, verb: string, allowed: bool, at: int) {
    exists a :: a in answers && a.token == token && a.verb == verb && a.at == at && SaysAllowed(a.reply, allowed)
  }

  ghost predicate CachesBacked(w: World) {
    && (forall x :: x in w.reviews ==> ReviewedAt(w.verdicts, x.key, x.value, x.expiresAt - 30_000))
    && (forall x :: x in w.sars ==> Answered(w.answers, x.key.0, x.key.1, x.value, x.expiresAt - 10_000))
    && |w.reviews| <= 1000 && |w.sars| <= 1000
  }

  ghost predicate CallBacked(verdicts: set<Verdict>, c: Call) {
    match c.stage
    case Reviewed(r) => r.Unauthenticated? || Resolved(verdicts, c.token, r, c.reviewedAt)
    case AwaitAccess(s) => s.Subject? && Resolved(verdicts, c.token, s, c.reviewedAt)
    case _ => true
  }

  ghost predicate AnswerBacked(verdicts: set<Verdict>, a: Answer) {
    a.subject.Subject? && Resolved(verdicts, a.token, a.subject, a.reviewedAt)
  }

  ghost predicate Inv(w: World) {
    && CachesBacked(w)
    && (forall id :: id in w.calls ==> CallBacked(w.verdicts, w.calls[id]))
    && (forall a :: a in w.answers ==> AnswerBacked(w.verdicts, a))
  }

  lemma MoreVerdicts(some: set<Verdict>, more: set<Verdict>)
    requires some <= more
    ensures forall c :: CallBacked(some, c) ==> CallBacked(more, c)
    ensures forall a :: AnswerBacked(some, a) ==> AnswerBacked(more, a)
    ensures forall token, r, at :: ReviewedAt(some, token, r, at) ==> ReviewedAt(more, token, r, at)
  {
    hide Says;
    forall token, s, asOf | Resolved(some, token, s, asOf) ensures Resolved(more, token, s, asOf) {
      var v :| v in some && v.token == token && asOf - v.at < 30_000 && Says(v.reply, s);
      assert v in more;
    }
    forall token, r, at | ReviewedAt(some, token, r, at) ensures ReviewedAt(more, token, r, at) {
      var v :| v in some && v.token == token && v.at == at && Says(v.reply, r);
      assert v in more;
    }
  }

  lemma CachedIsResolved(verdicts: set<Verdict>, token: string, r: Review, at: int, now: int)
    requires ReviewedAt(verdicts, token, r, at) && now - at < 30_000
    ensures Resolved(verdicts, token, r, now)
  {
    hide Says;
    var v :| v in verdicts && v.token == token && v.at == at && Says(v.reply, r);
  }

  lemma BeginInv(w: World, id: nat, token: string, verb: string)
    requires Inv(w)
    ensures Inv(Begin(w, id, token, verb))
  {
    hide AfterGet, Lookup, Says, ReviewedAt, Resolved, Answered;
    OnlyOld(w.reviews, token, w.now);
    if Lookup(w.reviews, token, w.now).Some? {
      var x := LookupFinds(w.reviews, token, w.now);
      CachedIsResolved(w.verdicts, x.key, x.value, x.expiresAt - 30_000, w.now);
    }
  }

  lemma TakeReviewInv(w: World, id: nat, r: ReviewReply)
    requires Inv(w) && id in w.calls
    ensures Inv(TakeReview(w, id, r))
  {
    hide AfterSet, Says, ReviewOf, Answered;
    var t, c := TakeReview(w, id, r), w.calls[id];
    OnlyNew(w.reviews, TOKEN_REVIEW_TTL, MAX_CACHE_ENTRIES, c.token, ReviewOf(r), w.now);
    MoreVerdicts(w.verdicts, t.verdicts);
    RepliesMean(r, AccessFailed);
    assert Verdict(c.token, r, w.now) in t.verdicts;
    if ReviewConfirmed(r) {
      assert ReviewedAt(t.verdicts, c.token, ReviewOf(r), w.now);
      assert Resolved(t.verdicts, c.token, ReviewOf(r), w.now);
    }
    hide ReviewedAt, Resolved;
  }

  lemma GoOnInv(w: World, id: nat)
    requires Inv(w) && id in w.calls && w.calls[id].stage.Reviewed?
    ensures Inv(GoOn(w, id))
  {
    hide AfterGet, Lookup, Says, ReviewedAt, Resolved, Answered;
    OnlyOld(w.sars, (w.calls[id].token, w.calls[id].verb), w.now);
  }

  lemma MoreAnswers(some: set<Answer>, more: set<Answer>)
    requires some <= more
    ensures forall token, verb, b, at :: Answered(some, token, verb, b, at) ==> Answered(more, token, verb, b, at)
  {
    hide SaysAllowed;
    forall token, verb, b, at | Answered(some, token, verb, b, at) ensures Answered(more, token, verb, b, at) {
      var a :| a in some && a.token == token && a.verb == verb && a.at == at && SaysAllowed(a.reply, b);
      assert a in more;
    }
  }

  lemma TakeAccessInv(w: World, id: nat, r: AccessReply)
    requires Inv(w) && id in w.calls && w.calls[id].stage.AwaitAccess?
    ensures Inv(TakeAccess(w, id, r))
  {
    hide AfterSet, Allows, SaysAllowed, Says, ReviewedAt, Resolved;
    var t, c := TakeAccess(w, id, r), w.calls[id];
    OnlyNew(w.sars, SAR_TTL, MAX_CACHE_ENTRIES, (c.token, c.verb), Allows(r), w.now);
    MoreAnswers(w.answers, t.answers);
    RepliesMean(ReviewFailed, r);
    assert Answer(c.token, c.verb, c.stage.subject, c.reviewedAt, r, w.now) in t.answers;
    if AccessConfirmed(r) { assert Answered(t.answers, c.token, c.verb, Allows(r), w.now); }
    hide Answered;
  }

  lemma StepInv(w: World, e: Event)
    requires Inv(w)
    ensures Inv(Step(w, e))
  {
    hide Begin, TakeReview, GoOn, TakeAccess;
    match e
    case Tick(_) =>
    case Authorize(id, token, verb) => BeginInv(w, id, token, verb);
    case GotReview(id, r) => if id in w.calls { TakeReviewInv(w, id, r); }
    case Resume(id) => if id in w.calls && w.calls[id].stage.Reviewed? { GoOnInv(w, id); }
    case GotAccess(id, r) => if id in w.calls && w.calls[id].stage.AwaitAccess? { TakeAccessInv(w, id, r); }
  }

  lemma {:induction false} RunInv(now: int, events: seq<Event>)
    ensures Inv(Run(Init(now), events))
  {
    if events != [] {
      RunInv(now, events[..|events| - 1]);
      StepInv(Run(Init(now), events[..|events| - 1]), events[|events| - 1]);
    }
  }

  /**
   The evidence for a grant at `now`: a 2xx reply with allowed == true for the token and
   verb, less than 10 s old, given for a subject that a 2xx review of the same token named.
   */
  ghost predicate GrantBacked(w: World, token: string, verb: string, now: int) {
    exists a :: a in w.answers && a.token == token && a.verb == verb && now - a.at < 10_000
             && a.reply.AccessHttp? && 200 <= a.reply.status < 300 && a.reply.allowed
             && AnswerBacked(w.verdicts, a)
  }

  /**
   In every interleaving, with any clock: the step that grants a call has an ALLOW of the
   apiserver for that token's verb, less than 10 s old, given for a subject that a token
   review of the same token named; and the call itself holds an authenticated review.
   */
  lemma GrantIsBacked(start: int, events: seq<Event>, e: Event, id: nat)
    requires var w := Run(Init(start), events);
      id in w.calls && !w.calls[id].stage.Done? && Step(w, e).calls[id].stage == Done(true)
    ensures var (w, t) := (Run(Init(start), events), Step(Run(Init(start), events), e));
      && GrantBacked(t, w.calls[id].token, w.calls[id].verb, t.now)
      && (exists s: Review :: s.Subject? && Resolved(w.verdicts, w.calls[id].token, s, w.calls[id].reviewedAt))
  {
    hide AfterGet, AfterSet, Lookup, Run, Says, Resolved, ReviewedAt;
    var w := Run(Init(start), events);
    RunInv(start, events);
    var c, t := w.calls[id], Step(w, e);
    assert e == Resume(id) || (e.GotAccess? && e.id == id);
    StepInv(w, e);
    if e.Resume? {
      var x := LookupFinds(w.sars, (c.token, c.verb), w.now);
      var a :| a in w.answers && a.token == x.key.0 && a.verb == x.key.1 && a.at == x.expiresAt - 10_000 && SaysAllowed(a.reply, x.value);
      assert a in t.answers && AnswerBacked(t.verdicts, a);
    } else {
      assert Answer(c.token, c.verb, c.stage.subject, c.reviewedAt, e.access, w.now) in t.answers;
    }
  }

  /** A failed or non-2xx request changes no cache, and its call ends denied. */
  lemma FailureDenies(w: World, e: Event)
    requires e.GotReview? || e.GotAccess?
    requires if e.GotReview? then e.review.ReviewFailed? || !(200 <= e.review.status < 300)
             else e.access.AccessFailed? || !(200 <= e.access.status < 300)
    ensures var t := Step(w, e);
      && t.reviews == w.reviews && t.sars == w.sars
      && (t != w ==> e.id in t.calls && Step(t, Resume(e.id)).calls[e.id].stage == Done(false)
                     && t.calls == w.calls[e.id := t.calls[e.id]])
  {
  }

  /**
   A 2xx access reply decides its call by its field `allowed`, and the same value is what
   the cache answers for the token and verb during the next 10 s.
   */
  lemma AccessDecides(w: World, id: nat, status: int, allowed: bool, later: int)
    requires id in w.calls && w.calls[id].stage.AwaitAccess? && 200 <= status < 300 && later < w.now + 10_000
    ensures var (c, t) := (w.calls[id], Step(w, GotAccess(id, AccessHttp(status, allowed))));
      && id in t.calls && t.calls[id].stage == Done(allowed) && t.calls[id].clean == c.clean
      && Lookup(t.sars, (c.token, c.verb), later) == Some(allowed)
  {
    hide AfterSet, Lookup;
    var c := w.calls[id];
    SetServes(w.sars, SAR_TTL, MAX_CACHE_ENTRIES, (c.token, c.verb), allowed, w.now, later);
  }

  /** A 2xx review names its user only if it says authenticated, and is what the cache answers during the next 30 s. */
  lemma ReviewDecides(w: World, id: nat, status: int, authenticated: bool, user: string, groups: seq<string>, later: int)
    requires id in w.calls && w.calls[id].stage.AwaitReview? && 200 <= status < 300 && later < w.now + 30_000
    ensures var (c, t) := (w.calls[id], Step(w, GotReview(id, ReviewHttp(status, authenticated, user, groups))));
      var review := if authenticated && user != "" then Subject(user, groups) else Unauthenticated;
      && id in t.calls && t.calls[id].stage == Reviewed(review) && t.calls[id].clean == c.clean
      && Lookup(t.reviews, c.token, later) == Some(review)
  {
    hide AfterSet, Lookup;
    var r := ReviewHttp(status, authenticated, user, groups);
    SetServes(w.reviews, TOKEN_REVIEW_TTL, MAX_CACHE_ENTRIES, w.calls[id].token, ReviewOf(r), w.now, later);
  }

  /** A call without a token is denied at once; with one it takes the cached review, or waits for one. */
  lemma AuthorizeDecides(w: World, id: nat, token: string, verb: string)
    requires id !in w.calls
    ensures var t := Step(w, Authorize(id, token, verb));
      && id in t.calls && t.calls[id].token == token && t.calls[id].verb == verb && t.calls[id].clean
      && (if token == "" then t.calls[id].stage == Done(false)
          else match Lookup(w.reviews, token, w.now)
               case Some(review) => t.calls[id].stage == Reviewed(review)
               case None => t.calls[id].stage == AwaitReview)
  {
  }

  /** A cached answer decides a call by its value; a call without an authenticated review is denied. */
  lemma CachedDecides(w: World, id: nat)
    requires id in w.calls && w.calls[id].stage.Reviewed?
    ensures var (c, t) := (w.calls[id], Step(w, Resume(id)));
      && id in t.calls
      && (c.stage.review.Unauthenticated? ==> t.calls[id].stage == Done(false))
      && (c.stage.review.Subject? ==>
        match Lookup(w.sars, (c.token, c.verb), w.now)
        case Some(b) => t.calls[id].stage == Done(b)
        case None => t.calls[id].stage == AwaitAccess(c.stage.review))
  {
  }

  // ---------------------------------------------------------------------------
  // Against an apiserver that does not change its mind
  // ---------------------------------------------------------------------------

  datatype Server = Server(review: string -> Review, access: (Review, string) -> bool)

  /** What authorize would answer without caches and failures. */
  predicate Uncached(server: Server, token: string, verb: string) {
    token != "" && server.review(token).Subject? && server.access(server.review(token), verb)
  }

  /** A 2xx reply carries the server's own answer in its fields; a request may still fail. */
  ghost predicate Faithful(server: Server, w: World, e: Event) {
    match e
    case GotReview(id, r) => r.ReviewHttp? && 200 <= r.status < 300 && id in w.calls ==> Says(r, server.review(w.calls[id].token))
    case GotAccess(id, r) =>
      r.AccessHttp? && 200 <= r.status < 300 && id in w.calls && w.calls[id].stage.AwaitAccess? ==>
        r.allowed == server.access(w.calls[id].stage.subject, w.calls[id].verb)
    case _ => true
  }

  ghost predicate FaithfulRun(server: Server, w: World, events: seq<Event>) {
    events == [] ||
    (FaithfulRun(server, w, events[..|events| - 1]) &&
     Faithful(server, Run(w, events[..|events| - 1]), events[|events| - 1]))
  }

  ghost predicate Agrees(server: Server, c: Call) {
    match c.stage
    case AwaitReview => c.token != ""
    case Reviewed(r) => c.token != "" && (r == server.review(c.token) || (r.Unauthenticated? && !c.clean))
    case AwaitAccess(s) => c.token != "" && s.Subject? && s == server.review(c.token)
    case Done(b) => (b ==> Uncached(server, c.token, c.verb)) && (c.clean ==> b == Uncached(server, c.token, c.verb))
  }

  ghost predicate ServerInv(server: Server, w: World) {
    && (forall x :: x in w.reviews ==> x.value == server.review(x.key))
    && (forall x :: x in w.sars ==> x.value == server.access(server.review(x.key.0), x.key.1))
    && (forall id :: id in w.calls ==> Agrees(server, w.calls[id]))
  }

  lemma StepServer(server: Server, w: World, e: Event)
    requires ServerInv(server, w) && Faithful(server, w, e)
    ensures ServerInv(server, Step(w, e))
  {
    hide AfterGet, AfterSet, Lookup;
    match e
    case Tick(_) =>
    case Authorize(id, token, verb) =>
      OnlyOld(w.reviews, token, w.now);
      if Lookup(w.reviews, token, w.now).Some? { var x := LookupFinds(w.reviews, token, w.now); }
    case GotReview(id, r) =>
      if id in w.calls {
        OnlyNew(w.reviews, TOKEN_REVIEW_TTL, MAX_CACHE_ENTRIES, w.calls[id].token, ReviewOf(r), w.now);
      }
    case Resume(id) =>
      if id in w.calls {
        var k := (w.calls[id].token, w.calls[id].verb);
        OnlyOld(w.sars, k, w.now);
        if Lookup(w.sars, k, w.now).Some? { var x := LookupFinds(w.sars, k, w.now); }
      }
    case GotAccess(id, r) =>
      if id in w.calls {
        var k := (w.calls[id].token, w.calls[id].verb);
        OnlyNew(w.sars, SAR_TTL, MAX_CACHE_ENTRIES, k, Allows(r), w.now);
      }
  }

  lemma {:induction false} RunServer(server: Server, now: int, events: seq<Event>)
    requires FaithfulRun(server, Init(now), events)
    ensures ServerInv(server, Run(Init(now), events))
  {
    if events != [] {
      RunServer(server, now, events[..|events| - 1]);
      StepServer(server, Run(Init(now), events[..|events| - 1]), events[|events| - 1]);
    }
  }

  /**
   Against an unchanging apiserver every grant is one the uncached authorizer gives, and a
   call none of whose own requests failed answers exactly as the uncached one.
   */
  lemma CachedAsUncached(server: Server, now: int, events: seq<Event>, id: nat)
    requires FaithfulRun(server, Init(now), events)
    requires var w := Run(Init(now), events); id in w.calls && w.calls[id].stage.Done?
    ensures var c := Run(Init(now), events).calls[id];
      && (c.stage.granted ==> Uncached(server, c.token, c.verb))
      && (c.clean ==> (c.stage.granted <==> Uncached(server, c.token, c.verb)))
  {
    RunServer(server, now, events);
  }
}
