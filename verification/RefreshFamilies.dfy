/**
 Refresh-token rotation and the burning of token families on reuse, as section 4.14.2 of RFC 9700
 describes them. A presented secret enters as the id its keyed hash names; ids are drawn fresh, which
 is the assumption that the hash does not collide.
 */
module RefreshFamilies {
  import opened Prelude

  type Id = nat
  type Family = nat
  type Time = int
  type Request = nat

  datatype Token = Token(id: Id, family: Family, expiresAt: Time, used: bool)

  datatype RotateError = NotFound | Expired | Reuse | Storage

  /** The token table and the index from family to the ids saved in it. */
  datatype Db = Db(tokens: map<Id, Token>, families: map<Family, seq<Id>>)

  function SaveIn(db: Db, t: Token): Db {
    Db(db.tokens[t.id := t],
       db.families[t.family := (if t.family in db.families then db.families[t.family] else []) + [t.id]])
  }

  function MarkIn(db: Db, id: Id): Db
    requires id in db.tokens
  {
    db.(tokens := db.tokens[id := db.tokens[id].(used := true)])
  }

  /** Delete every token of a family. */
  function BurnIn(db: Db, f: Family): Db {
    Db(map id | id in db.tokens && db.tokens[id].family != f :: db.tokens[id], db.families - {f})
  }

  /** Every token is filed under its own id and listed in its own family, and in no other. */
  ghost predicate Indexed(db: Db) {
    && (forall id :: id in db.tokens ==>
          && db.tokens[id].id == id && db.tokens[id].family in db.families
          && id in db.families[db.tokens[id].family])
    && (forall f, id :: f in db.families && id in db.families[f] && id in db.tokens ==> db.tokens[id].family == f)
  }

  /** What validating a secret with id `id` answers. */
  function Validation(db: Db, id: Id, now: Time): Result<Token, RotateError> {
    if id !in db.tokens then Err(NotFound)
    else if db.tokens[id].expiresAt < now then Err(Expired)
    else if db.tokens[id].used then Err(Reuse)
    else Ok(db.tokens[id])
  }

  function AfterValidation(db: Db, id: Id, now: Time): Db {
    if Validation(db, id, now) == Err(Reuse) then BurnIn(db, db.tokens[id].family) else db
  }

  /** Under the index, removing what a family lists is removing the family. */
  lemma ListedIsFamily(db: Db, f: Family)
    requires Indexed(db) && f in db.families
    ensures db.tokens - (set id | id in db.families[f]) == BurnIn(db, f).tokens
  {
  }

  /** The stored table, changed in place. */
  class TokenStore {
    var tokens: map<Id, Token>
    var families: map<Family, seq<Id>>

    constructor ()
      ensures View() == Db(map[], map[]) && Indexed(View())
    {
      tokens, families := map[], map[];
    }

    function View(): Db
      reads this
    {
      Db(tokens, families)
    }

    method SaveRefreshToken(t: Token)
      modifies this
      ensures View() == SaveIn(old(View()), t)
    {
      families := families[t.family := (if t.family in families then families[t.family] else []) + [t.id]];
      tokens := tokens[t.id := t];
    }

    method MarkRefreshUsed(id: Id) returns (found: bool)
      modifies this`tokens
      ensures found <==> id in old(tokens)
      ensures View() == if found then MarkIn(old(View()), id) else old(View())
    {
      if id !in tokens {
        return false;
      }
      tokens := tokens[id := tokens[id].(used := true)];
      found := true;
    }

    /** Follows the family index, removing one listed token after the other. */
    method RevokeTokenFamily(f: Family)
      requires Indexed(View())
      modifies this
      ensures View() == BurnIn(old(View()), f)
    {
      if f in families {
        var ids := families[f];
        families := families - {f};
        for i := 0 to |ids|
          invariant families == old(families) - {f}
          invariant tokens == old(tokens) - (set id | id in ids[..i])
        {
          tokens := tokens - {ids[i]};
        }
        assert ids[..|ids|] == ids;
        ListedIsFamily(old(View()), f);
        assert tokens == BurnIn(old(View()), f).tokens;
      } else {
        assert tokens == BurnIn(old(View()), f).tokens;
        assert families == families - {f};
      }
    }

    /** `validate_refresh`: `id` is the keyed hash of the presented secret. */
    method ValidateRefresh(id: Id, now: Time) returns (r: Result<Token, RotateError>)
      requires Indexed(View())
      modifies this
      ensures r == Validation(old(View()), id, now)
      ensures View() == AfterValidation(old(View()), id, now)
      ensures r.Ok? <==> Fresh(old(View()), id, now)
      ensures r.Ok? ==> r.value == old(tokens)[id]
      ensures r == Err(Reuse) <==> id in old(tokens) && old(tokens)[id].used && now <= old(tokens)[id].expiresAt
      ensures r != Err(Reuse) ==> View() == old(View())
      ensures r == Err(Reuse) ==>
                forall x :: x in tokens <==> x in old(tokens) && old(tokens)[x].family != old(tokens)[id].family
    {
      if id !in tokens {
        return Err(NotFound);
      }
      var tok := tokens[id];
      if tok.expiresAt < now {
        return Err(Expired);
      }
      if tok.used {
        RevokeTokenFamily(tok.family);
        return Err(Reuse);
      }
      r := Ok(tok);
    }

    /** `rotate_refresh_token`: nothing is saved when the prior token is gone. */
    method RotateRefreshToken(prior: Token, replacement: Token) returns (r: Result<(), RotateError>)
      modifies this
      ensures r.Ok? <==> prior.id in old(tokens)
      ensures View() == if r.Ok? then SaveIn(MarkIn(old(View()), prior.id), replacement) else old(View())
    {
      var found := MarkRefreshUsed(prior.id);
      if !found {
        return Err(Storage);
      }
      SaveRefreshToken(replacement);
      r := Ok(());
    }
  }

  // ---- Any number of requests, interleaved at every storage call ----

  /**
   A request has validated a token, or has also marked it and not yet saved the replacement, or has found
   the token used and not yet revoked its family.
   */
  datatype Phase = Validated(prior: Token) | Marked(prior: Token) | Burning(prior: Token)

  /** `issued` remembers the family of every id ever handed out. */
  datatype Sys = Sys(db: Db, requests: map<Request, Phase>, issued: map<Id, Family>)

  datatype Step =
    | Issue(t: Token)
    | Validate(r: Request, id: Id, now: Time)
    | Burn(r: Request)
    | Mark(r: Request)
    | Save(r: Request, t: Token)
    | Stop(r: Request)

  function Init(): Sys {
    Sys(Db(map[], map[]), map[], map[])
  }

  /** Ids and families are drawn fresh; a replacement keeps its prior's family and starts unused. */
  predicate Enabled(s: Sys, step: Step) {
    match step
    case Issue(t) => t.id !in s.issued && t.family !in s.issued.Values && !t.used
    case Validate(r, _, _) => r !in s.requests
    case Burn(r) => r in s.requests && s.requests[r].Burning?
    case Mark(r) => r in s.requests && s.requests[r].Validated?
    case Save(r, t) =>
      && r in s.requests && s.requests[r].Marked?
      && t.id !in s.issued && t.family == s.requests[r].prior.family && !t.used
    case Stop(r) => r in s.requests
  }

  function Apply(s: Sys, step: Step): Sys
    requires Enabled(s, step)
  {
    match step
    case Issue(t) => Sys(SaveIn(s.db, t), s.requests, s.issued[t.id := t.family])
    case Validate(r, id, now) =>
      (match Validation(s.db, id, now)
       case Ok(prior) => s.(requests := s.requests[r := Validated(prior)])
       case Err(Reuse) => s.(requests := s.requests[r := Burning(s.db.tokens[id])])
       case Err(_) => s)
    case Burn(r) => Sys(BurnIn(s.db, s.requests[r].prior.family), s.requests - {r}, s.issued)
    case Mark(r) =>
      var prior := s.requests[r].prior;
      if prior.id in s.db.tokens then Sys(MarkIn(s.db, prior.id), s.requests[r := Marked(prior)], s.issued)
      else s.(requests := s.requests - {r})
    case Save(r, t) => Sys(SaveIn(s.db, t), s.requests - {r}, s.issued[t.id := t.family])
    case Stop(r) => s.(requests := s.requests - {r})
  }

  /** Everything stored or listed was issued, in the family it is stored under. */
  ghost predicate Accounted(db: Db, issued: map<Id, Family>) {
    && (forall f, id :: f in db.families && id in db.families[f] ==> id in issued && issued[id] == f)
    && (forall id :: id in db.tokens ==> id in issued && issued[id] == db.tokens[id].family)
  }

  ghost predicate RequestsAccounted(requests: map<Request, Phase>, issued: map<Id, Family>) {
    forall r :: r in requests ==>
      requests[r].prior.id in issued && issued[requests[r].prior.id] == requests[r].prior.family
  }

  ghost predicate Coherent(s: Sys) {
    Indexed(s.db) && Accounted(s.db, s.issued) && RequestsAccounted(s.requests, s.issued)
  }

  lemma SaveCoherent(db: Db, t: Token, issued: map<Id, Family>)
    requires Indexed(db) && Accounted(db, issued) && t.id !in issued
    ensures Indexed(SaveIn(db, t)) && Accounted(SaveIn(db, t), issued[t.id := t.family])
  {
  }

  lemma BurnCoherent(db: Db, f: Family, issued: map<Id, Family>)
    requires Indexed(db) && Accounted(db, issued)
    ensures Indexed(BurnIn(db, f)) && Accounted(BurnIn(db, f), issued)
  {
  }

  lemma MarkCoherent(db: Db, id: Id, issued: map<Id, Family>)
    requires Indexed(db) && Accounted(db, issued) && id in db.tokens
    ensures Indexed(MarkIn(db, id)) && Accounted(MarkIn(db, id), issued)
  {
  }

  lemma StepRequestsAccounted(s: Sys, step: Step)
    requires Coherent(s) && Enabled(s, step)
    ensures RequestsAccounted(Apply(s, step).requests, Apply(s, step).issued)
  {
    hide SaveIn, BurnIn, MarkIn;
    if step.Validate? && step.id in s.db.tokens {
      assert s.issued[step.id] == s.db.tokens[step.id].family && s.db.tokens[step.id].id == step.id;
    }
  }

  lemma StepCoherent(s: Sys, step: Step)
    requires Coherent(s) && Enabled(s, step)
    ensures Coherent(Apply(s, step))
  {
    hide RequestsAccounted, Indexed, Accounted, SaveIn, BurnIn, MarkIn;
    StepRequestsAccounted(s, step);
    match step {
      case Issue(t) => SaveCoherent(s.db, t, s.issued);
      case Save(_, t) => SaveCoherent(s.db, t, s.issued);
      case Validate(_, _, _) =>
      case Burn(r) => BurnCoherent(s.db, s.requests[r].prior.family, s.issued);
      case Mark(r) =>
        if s.requests[r].prior.id in s.db.tokens {
          MarkCoherent(s.db, s.requests[r].prior.id, s.issued);
        }
      case Stop(_) =>
    }
  }

  // ---- At most one live claim on a family ----

  predicate Live(s: Sys, f: Family, id: Id) {
    id in s.db.tokens && s.db.tokens[id].family == f && !s.db.tokens[id].used
  }

  predicate InRotation(s: Sys, f: Family, r: Request) {
    r in s.requests && s.requests[r].Marked? && s.requests[r].prior.family == f
  }

  /** A family's claims are its unused tokens and the rotations between their two writes: at most one in all. */
  ghost predicate SingleClaim(s: Sys, f: Family) {
    && (forall a, b :: Live(s, f, a) && Live(s, f, b) ==> a == b)
    && (forall q, r :: InRotation(s, f, q) && InRotation(s, f, r) ==> q == r)
    && (forall a, r :: !(Live(s, f, a) && InRotation(s, f, r)))
  }

  ghost predicate NoClaim(s: Sys, f: Family) {
    (forall a :: !Live(s, f, a)) && (forall r :: !InRotation(s, f, r))
  }

  /** A mark is prompt if the token it marks is gone or still unused: nobody rotated it in between. */
  predicate Prompt(s: Sys, step: Step) {
    step.Mark? && step.r in s.requests && s.requests[step.r].prior.id in s.db.tokens
    ==> !s.db.tokens[s.requests[step.r].prior.id].used
  }

  /** Conservation: no step but a late mark can give a family a second claim. */
  lemma StepKeepsSingleClaim(s: Sys, step: Step, f: Family)
    requires Coherent(s) && Enabled(s, step) && Prompt(s, step) && SingleClaim(s, f)
    ensures SingleClaim(Apply(s, step), f)
  {
    var t := Apply(s, step);
    match step {
      case Issue(tok) =>
        if tok.family == f {
          FreshFamilyUnclaimed(s, f);
        }
        assert forall a :: Live(t, f, a) ==> Live(s, f, a) || (a == tok.id && tok.family == f);
        assert forall r :: InRotation(t, f, r) <==> InRotation(s, f, r);
      case Save(r, tok) =>
        assert tok.family == f ==> InRotation(s, f, r);
        assert forall a :: Live(t, f, a) ==> Live(s, f, a) || (a == tok.id && tok.family == f);
        assert forall q :: InRotation(t, f, q) <==> InRotation(s, f, q) && q != r;
      case Mark(r) =>
        if s.requests[r].prior.id in s.db.tokens && s.requests[r].prior.family == f {
          assert Live(s, f, s.requests[r].prior.id);
        }
        assert forall a :: Live(t, f, a) ==> Live(s, f, a) && a != s.requests[r].prior.id;
        assert forall q ::
            InRotation(t, f, q) ==> InRotation(s, f, q) || (q == r && Live(s, f, s.requests[r].prior.id));
      case _ =>
        assert forall a :: Live(t, f, a) ==> Live(s, f, a);
        assert forall q :: InRotation(t, f, q) ==> InRotation(s, f, q);
    }
  }

  lemma FreshFamilyUnclaimed(s: Sys, f: Family)
    requires Coherent(s) && f !in s.issued.Values
    ensures NoClaim(s, f)
  {
    forall id | id in s.db.tokens
      ensures s.db.tokens[id].family != f
    {
      assert s.issued[id] in s.issued.Values;
    }
    forall r | r in s.requests
      ensures s.requests[r].prior.family != f
    {
      assert s.issued[s.requests[r].prior.id] in s.issued.Values;
    }
  }

  /**
   A mark keeps the single claim of its family exactly when the marked token is gone, or is still
   unused, or nothing else has a claim on the family.
   */
  lemma MarkKeepsSingleClaimIff(s: Sys, r: Request)
    requires Coherent(s) && Enabled(s, Mark(r)) && SingleClaim(s, s.requests[r].prior.family)
    ensures var prior := s.requests[r].prior;
            SingleClaim(Apply(s, Mark(r)), prior.family)
            <==> prior.id !in s.db.tokens || !s.db.tokens[prior.id].used || NoClaim(s, prior.family)
  {
    var prior := s.requests[r].prior;
    var f, t := prior.family, Apply(s, Mark(r));
    if prior.id in s.db.tokens && s.db.tokens[prior.id].used {
      assert InRotation(t, f, r);
      if a :| Live(s, f, a) {
        assert Live(t, f, a);
      } else if q :| InRotation(s, f, q) {
        assert InRotation(t, f, q) && q != r;
      } else {
        assert forall a :: Live(t, f, a) ==> Live(s, f, a);
        assert forall q :: InRotation(t, f, q) ==> InRotation(s, f, q) || q == r;
      }
    } else {
      StepKeepsSingleClaim(s, Mark(r), f);
    }
  }

  // ---- Runs ----

  ghost predicate Possible(s: Sys, steps: seq<Step>)
    decreases |steps|
  {
    steps == [] || (Enabled(s, steps[0]) && Possible(Apply(s, steps[0]), steps[1..]))
  }

  ghost function Exec(s: Sys, steps: seq<Step>): Sys
    requires Possible(s, steps)
    decreases |steps|
  {
    if steps == [] then s else Exec(Apply(s, steps[0]), steps[1..])
  }

  ghost predicate AllPrompt(s: Sys, steps: seq<Step>)
    requires Possible(s, steps)
    decreases |steps|
  {
    steps == [] || (Prompt(s, steps[0]) && AllPrompt(Apply(s, steps[0]), steps[1..]))
  }

  lemma OneStep(s: Sys, step: Step, rest: seq<Step>)
    requires Enabled(s, step) && Possible(Apply(s, step), rest)
    ensures Possible(s, [step] + rest) && Exec(s, [step] + rest) == Exec(Apply(s, step), rest)
    ensures Prompt(s, step) && AllPrompt(Apply(s, step), rest) ==> AllPrompt(s, [step] + rest)
  {
    hide Apply, Enabled, Prompt;
    assert ([step] + rest)[1..] == rest;
  }

  lemma {:induction false} RunCoherent(s: Sys, steps: seq<Step>)
    requires Coherent(s) && Possible(s, steps)
    ensures Coherent(Exec(s, steps))
    decreases |steps|
  {
    hide Coherent;
    if steps == [] {
    } else {
      StepCoherent(s, steps[0]);
      RunCoherent(Apply(s, steps[0]), steps[1..]);
    }
  }

  /** In every interleaving without a late mark, every family has at most one unused token. */
  lemma {:induction false} PromptRunsKeepSingleClaim(s: Sys, steps: seq<Step>, f: Family)
    requires Coherent(s) && SingleClaim(s, f) && Possible(s, steps) && AllPrompt(s, steps)
    ensures SingleClaim(Exec(s, steps), f)
    decreases |steps|
  {
    hide Coherent, SingleClaim;
    if steps == [] {
    } else {
      StepCoherent(s, steps[0]);
      StepKeepsSingleClaim(s, steps[0], f);
      PromptRunsKeepSingleClaim(Apply(s, steps[0]), steps[1..], f);
    }
  }

  // ---- Sequential service ----

  /** Requests served one at a time, each possibly stopping before or between the two writes. */
  datatype Op = OpIssue(t: Token) | OpRefresh(r: Request, id: Id, now: Time, t: Token, writes: nat)

  /** The storage calls one request makes when nothing comes in between. */
  function Served(s: Sys, op: Op): seq<Step> {
    match op
    case OpIssue(t) => [Issue(t)]
    case OpRefresh(r, id, now, t, writes) =>
      if Validation(s.db, id, now) == Err(Reuse) then [Validate(r, id, now), Burn(r)]
      else if Validation(s.db, id, now).Err? then [Validate(r, id, now)]
      else if writes == 0 then [Validate(r, id, now), Stop(r)]
      else if writes == 1 then [Validate(r, id, now), Mark(r), Stop(r)]
      else [Validate(r, id, now), Mark(r), Save(r, t)]
  }

  /** Nobody is in the middle of a request. */
  ghost predicate Idle(s: Sys) {
    s.requests == map[]
  }

  predicate Admissible(s: Sys, op: Op) {
    match op
    case OpIssue(t) => t.id !in s.issued && t.family !in s.issued.Values && !t.used
    case OpRefresh(_, id, now, t, _) =>
      t.id !in s.issued && !t.used && (id in s.db.tokens ==> t.family == s.db.tokens[id].family)
  }

  /** Served alone, a request is always prompt and leaves nothing behind. */
  lemma ServedIsPrompt(s: Sys, op: Op)
    requires Coherent(s) && Idle(s) && Admissible(s, op)
    ensures Possible(s, Served(s, op)) && AllPrompt(s, Served(s, op)) && Idle(Exec(s, Served(s, op)))
  {
    match op {
      case OpIssue(t) =>
        OneStep(s, Issue(t), []);
        assert Served(s, op) == [Issue(t)] + [];
      case OpRefresh(r, id, now, t, writes) =>
        var first := Validate(r, id, now);
        var s1 := Apply(s, first);
        var second := if Validation(s.db, id, now) == Err(Reuse) then Burn(r) else Stop(r);
        if Validation(s.db, id, now).Err? && second.Stop? {
          OneStep(s, first, []);
          assert Served(s, op) == [first] + [];
        } else if second.Burn? || writes == 0 {
          assert Apply(s1, second).requests == map[];
          OneStep(s1, second, []);
          OneStep(s, first, [second] + []);
          assert Served(s, op) == [first] + ([second] + []);
        } else {
          var last := if writes == 1 then Stop(r) else Save(r, t);
          var s2 := Apply(s1, Mark(r));
          assert Apply(s2, last).requests == map[];
          OneStep(s2, last, []);
          OneStep(s1, Mark(r), [last] + []);
          OneStep(s, first, [Mark(r)] + ([last] + []));
          assert Served(s, op) == [first] + ([Mark(r)] + ([last] + []));
        }
    }
  }

  ghost predicate ServedOneByOne(s: Sys, ops: seq<Op>)
    requires Coherent(s) && Idle(s)
    decreases |ops|
  {
    ops == [] || (Admissible(s, ops[0]) && ServedOneByOne(Serve(s, ops[0]), ops[1..]))
  }

  ghost function Serve(s: Sys, op: Op): (t: Sys)
    requires Coherent(s) && Idle(s) && Admissible(s, op)
    ensures Coherent(t) && Idle(t)
  {
    ServedIsPrompt(s, op);
    RunCoherent(s, Served(s, op));
    Exec(s, Served(s, op))
  }

  ghost function ServeAll(s: Sys, ops: seq<Op>): (t: Sys)
    requires Coherent(s) && Idle(s) && ServedOneByOne(s, ops)
    ensures Coherent(t) && Idle(t)
    decreases |ops|
  {
    if ops == [] then s else ServeAll(Serve(s, ops[0]), ops[1..])
  }

  /** Served one by one, every family ever has at most one unused token. */
  lemma {:induction false} SequentialSingleToken(s: Sys, ops: seq<Op>, f: Family)
    requires Coherent(s) && Idle(s) && SingleClaim(s, f) && ServedOneByOne(s, ops)
    ensures SingleClaim(ServeAll(s, ops), f)
    decreases |ops|
  {
    hide SingleClaim;
    if ops == [] {
    } else {
      ServedIsPrompt(s, ops[0]);
      PromptRunsKeepSingleClaim(s, Served(s, ops[0]), f);
      SequentialSingleToken(Serve(s, ops[0]), ops[1..], f);
    }
  }

  // ---- Burned families ----

  /** No token of the family is stored. */
  ghost predicate Empty(s: Sys, f: Family) {
    forall id :: id in s.db.tokens ==> s.db.tokens[id].family != f
  }

  ghost predicate Dead(s: Sys, f: Family) {
    Empty(s, f) && f in s.issued.Values && forall r :: !InRotation(s, f, r)
  }

  lemma StepKeepsDead(s: Sys, step: Step, f: Family)
    requires Coherent(s) && Dead(s, f) && Enabled(s, step)
    ensures Dead(Apply(s, step), f)
  {
    var t := Apply(s, step);
    var id :| id in s.issued && s.issued[id] == f;
    assert id in t.issued && t.issued[id] == f;
    if step.Save? {
      assert !InRotation(s, f, step.r);
    }
    forall r | InRotation(t, f, r)
      ensures InRotation(s, f, r)
    {
    }
  }

  lemma {:induction false} DeadStaysDead(s: Sys, steps: seq<Step>, f: Family)
    requires Coherent(s) && Dead(s, f) && Possible(s, steps)
    ensures Dead(Exec(s, steps), f)
    decreases |steps|
  {
    hide Coherent, Dead;
    if steps == [] {
    } else {
      StepCoherent(s, steps[0]);
      StepKeepsDead(s, steps[0], f);
      DeadStaysDead(Apply(s, steps[0]), steps[1..], f);
    }
  }

  /** Whatever happens next, the family stays without tokens. */
  ghost predicate EmptyForever(s: Sys, f: Family) {
    forall steps :: Possible(s, steps) ==> Empty(Exec(s, steps), f)
  }

  /** Presenting a used, unexpired token sets out to revoke its family. */
  lemma ReuseIsNoticed(s: Sys, r: Request, id: Id, now: Time)
    requires r !in s.requests && id in s.db.tokens && s.db.tokens[id].expiresAt >= now && s.db.tokens[id].used
    ensures Apply(s, Validate(r, id, now)) == s.(requests := s.requests[r := Burning(s.db.tokens[id])])
  {
  }

  /**
   Revoking the family of a replayed token empties it. It stays empty in every interleaving exactly when,
   at the revoke, no other request was between the two writes of a rotation in it.
   */
  lemma ReuseBurnsFamily(s: Sys, r: Request)
    requires Coherent(s) && r in s.requests && s.requests[r].Burning?
    ensures var f := s.requests[r].prior.family;
            var t := Apply(s, Burn(r));
            && Empty(t, f)
            && (forall x :: x in s.db.tokens && s.db.tokens[x].family != f ==>
                  x in t.db.tokens && t.db.tokens[x] == s.db.tokens[x])
            && (EmptyForever(t, f) <==> forall q :: !InRotation(s, f, q))
  {
    var prior := s.requests[r].prior;
    var f, t := prior.family, Apply(s, Burn(r));
    StepCoherent(s, Burn(r));
    assert forall q :: InRotation(s, f, q) <==> InRotation(t, f, q);
    if q :| InRotation(s, f, q) {
      var fresh' := UnissuedId(t);
      var tok := Token(fresh', f, 0, false);
      assert Enabled(t, Save(q, tok));
      OneStep(t, Save(q, tok), []);
      var steps := [Save(q, tok)] + [];
      assert fresh' in Exec(t, steps).db.tokens;
    } else {
      assert s.issued[prior.id] == f && prior.id in t.issued;
      assert Dead(t, f);
      forall steps | Possible(t, steps)
        ensures Empty(Exec(t, steps), f)
      {
        DeadStaysDead(t, steps, f);
      }
    }
  }

  lemma UnissuedId(s: Sys) returns (id: Id)
    ensures id !in s.issued
  {
    id := AboveAll(s.issued.Keys);
  }

  lemma {:induction false} AboveAll(ids: set<Id>) returns (top: Id)
    ensures forall id :: id in ids ==> id < top
    decreases |ids|
  {
    if ids == {} {
      return 0;
    }
    var id :| id in ids;
    var rest := AboveAll(ids - {id});
    top := if id < rest then rest else id + 1;
    assert forall i :: i in ids ==> i == id || i in ids - {id};
  }

  /** After a burn that stays, no secret ever issued in the family validates again; hashing is injective. */
  lemma BurnedSecretsNeverValidate(s: Sys, steps: seq<Step>, f: Family, id: Id, now: Time)
    requires Coherent(s) && Dead(s, f) && Possible(s, steps)
    requires var t := Exec(s, steps); id in t.issued && t.issued[id] == f
    ensures Validation(Exec(s, steps).db, id, now) == Err(NotFound)
  {
    RunCoherent(s, steps);
    DeadStaysDead(s, steps, f);
  }

  lemma {:induction false} ServiceKeepsDead(s: Sys, ops: seq<Op>, f: Family)
    requires Coherent(s) && Idle(s) && Dead(s, f) && ServedOneByOne(s, ops)
    ensures Dead(ServeAll(s, ops), f)
    decreases |ops|
  {
    hide Dead;
    if ops == [] {
    } else {
      ServedIsPrompt(s, ops[0]);
      DeadStaysDead(s, Served(s, ops[0]), f);
      ServiceKeepsDead(Serve(s, ops[0]), ops[1..], f);
    }
  }

  /**
   Served one by one, a replayed token ends its family for good: whatever is served afterwards, no
   token ever issued in that family validates again.
   */
  lemma SequentialReuseIsFinal(s: Sys, replay: Op, ops: seq<Op>, id: Id, now: Time)
    requires Coherent(s) && Idle(s) && replay.OpRefresh? && Admissible(s, replay)
    requires Validation(s.db, replay.id, replay.now) == Err(Reuse)
    requires ServedOneByOne(Serve(s, replay), ops)
    requires var t := ServeAll(Serve(s, replay), ops); id in t.issued && t.issued[id] == s.db.tokens[replay.id].family
    ensures Validation(ServeAll(Serve(s, replay), ops).db, id, now) == Err(NotFound)
  {
    var f := s.db.tokens[replay.id].family;
    var first, burn := Validate(replay.r, replay.id, replay.now), Burn(replay.r);
    var t := Apply(s, first);
    StepCoherent(s, first);
    ReuseBurnsFamily(t, replay.r);
    OneStep(t, burn, []);
    OneStep(s, first, [burn] + []);
    assert Served(s, replay) == [first] + ([burn] + []);
    assert Serve(s, replay) == Apply(t, burn);
    assert s.issued[replay.id] == f;
    ServiceKeepsDead(Serve(s, replay), ops, f);
  }

  /**
   Two requests that validate the same token before either marks it give the family two unused
   tokens: the mark does not look at `used` again.
   */
  lemma RacingRotationsSplitFamily(now: Time) returns (steps: seq<Step>)
    ensures Possible(Init(), steps) && Live(Exec(Init(), steps), 5, 2) && Live(Exec(Init(), steps), 5, 3)
  {
    var a, b, c := Token(1, 5, now, false), Token(2, 5, now, false), Token(3, 5, now, false);
    var s0 := Init();
    var s1 := Apply(s0, Issue(a));
    var s2 := Apply(s1, Validate(1, 1, now));
    var s3 := Apply(s2, Validate(2, 1, now));
    var s4 := Apply(s3, Mark(1));
    var s5 := Apply(s4, Save(1, b));
    var s6 := Apply(s5, Mark(2));
    var s7 := Apply(s6, Save(2, c));
    assert Live(s7, 5, 2) && Live(s7, 5, 3);
    hide Apply, Enabled, Live;
    steps := [Issue(a), Validate(1, 1, now), Validate(2, 1, now), Mark(1), Save(1, b), Mark(2), Save(2, c)];
    assert Possible(s7, steps[7..]) && Exec(s7, steps[7..]) == s7;
    Unfold(s6, steps, 6, s7);
    Unfold(s5, steps, 5, s6);
    Unfold(s4, steps, 4, s5);
    Unfold(s3, steps, 3, s4);
    Unfold(s2, steps, 2, s3);
    Unfold(s1, steps, 1, s2);
    Unfold(s0, steps, 0, s1);
    assert steps[0..] == steps;
  }

  lemma Unfold(s: Sys, steps: seq<Step>, i: nat, next: Sys)
    requires i < |steps| && Enabled(s, steps[i]) && next == Apply(s, steps[i]) && Possible(next, steps[i + 1..])
    ensures Possible(s, steps[i..]) && Exec(s, steps[i..]) == Exec(next, steps[i + 1..])
  {
    assert steps[i..][0] == steps[i] && steps[i..][1..] == steps[i + 1..];
  }

  // ---- Which tokens are accepted ----

  /** The stored token with this id is unused and has not expired. */
  predicate Fresh(db: Db, id: Id, now: Time) {
    id in db.tokens && !db.tokens[id].used && now <= db.tokens[id].expiresAt
  }

  /**
   A request gets to hold `prior` exactly if that is the stored token it presented, unused and not expired
   at that moment. An unknown or expired token, used or not, leaves the whole system as it was.
   */
  lemma ValidateExact(s: Sys, r: Request, id: Id, now: Time, prior: Token)
    requires r !in s.requests
    ensures var t := Apply(s, Validate(r, id, now));
            && (r in t.requests && t.requests[r] == Validated(prior)
                <==> Fresh(s.db, id, now) && prior == s.db.tokens[id])
            && (id !in s.db.tokens || s.db.tokens[id].expiresAt < now ==> t == s)
            && t.db == s.db
  {
  }

  /** The state before the `i`-th step. */
  ghost function StateAt(s: Sys, steps: seq<Step>, i: nat): Sys
    requires Possible(s, steps) && i <= |steps|
    decreases i
  {
    if i == 0 then s else StateAt(Apply(s, steps[0]), steps[1..], i - 1)
  }

  /** The request presented `prior` in its `i`-th step, and it was unused and unexpired then. */
  ghost predicate PresentedAt(s: Sys, steps: seq<Step>, i: nat, r: Request, prior: Token)
    requires Possible(s, steps)
  {
    && i < |steps| && steps[i].Validate? && steps[i].r == r
    && Fresh(StateAt(s, steps, i).db, steps[i].id, steps[i].now)
    && StateAt(s, steps, i).db.tokens[steps[i].id] == prior
  }

  predicate Rotates(s: Sys, r: Request, prior: Token) {
    r in s.requests && !s.requests[r].Burning? && s.requests[r].prior == prior
  }

  lemma {:induction false} RotatesPresented(s: Sys, steps: seq<Step>, r: Request, prior: Token)
    requires Possible(s, steps) && Rotates(Exec(s, steps), r, prior)
    ensures Rotates(s, r, prior) || exists i: nat :: PresentedAt(s, steps, i, r, prior)
    decreases |steps|
  {
    if steps == [] {
    } else {
      var t := Apply(s, steps[0]);
      RotatesPresented(t, steps[1..], r, prior);
      if i: nat :| PresentedAt(t, steps[1..], i, r, prior) {
        assert PresentedAt(s, steps, i + 1, r, prior);
      } else if !Rotates(s, r, prior) {
        OnlyByPresenting(s, steps[0], r, prior);
        assert PresentedAt(s, steps, 0, r, prior);
      }
    }
  }

  lemma OnlyByPresenting(s: Sys, step: Step, r: Request, prior: Token)
    requires Enabled(s, step) && Rotates(Apply(s, step), r, prior) && !Rotates(s, r, prior)
    ensures step.Validate? && step.r == r && Fresh(s.db, step.id, step.now) && s.db.tokens[step.id] == prior
  {
    hide SaveIn, MarkIn, BurnIn;
  }

  /**
   In every interleaving a mark, and so a rotation, is only ever of a token that was unused and unexpired when
   its request presented it.
   */
  lemma OnlyPresentedTokensRotate(steps: seq<Step>, r: Request)
    requires Possible(Init(), steps) && Enabled(Exec(Init(), steps), Mark(r))
    ensures exists i: nat :: PresentedAt(Init(), steps, i, r, Exec(Init(), steps).requests[r].prior)
  {
    hide Possible, Exec, PresentedAt;
    RotatesPresented(Init(), steps, r, Exec(Init(), steps).requests[r].prior);
  }

  /**
   A rotation hands the claim over: its replacement validates, the prior token is a replay, and every other
   token answers as before.
   */
  lemma RotationHandsOver(db: Db, prior: Token, t: Token, id: Id, now: Time)
    requires Validation(db, prior.id, now) == Ok(prior) && t.id !in db.tokens && !t.used && now <= t.expiresAt
    ensures var after := SaveIn(MarkIn(db, prior.id), t);
            && Validation(after, t.id, now) == Ok(t)
            && Validation(after, prior.id, now) == Err(Reuse)
            && (id != t.id && id != prior.id ==> Validation(after, id, now) == Validation(db, id, now))
  {
  }
}
