/** The broker mapper pipeline: bindings applied to a draft user in priority order. */
module BrokerMapper {
  import opened Prelude
  import opened Decimal

  datatype Attribute =
    | AString(s: string)
    | AStrings(items: seq<string>)
    | AInteger(i: int)
    | ABool(b: bool)
    | AFloat(printed: string)
    | ANull

  type Claims = map<string, Attribute>

  datatype Kind =
    | ClaimToAttribute(claim: string, attribute: string, overwrite: bool)
    | ClaimToRole(claim: string, values: seq<string>, matchAny: bool, role: string)
    | ClaimToOrg(claim: string, values: seq<string>, matchAny: bool, orgAlias: string, orgRole: Option<string>)
    | UsernameTemplate(template: string)
    | EmailVerifiedPassthrough

  datatype Binding = Binding(name: string, priority: int, kind: Kind)

  datatype OrgAssignment = OrgAssignment(orgAlias: string, role: Option<string>)

  datatype Draft = Draft(
    username: Option<string>,
    email: Option<string>,
    emailVerified: bool,
    attributes: map<string, Attribute>,
    roles: seq<string>,
    orgs: seq<OrgAssignment>
  )

  function PrintBool(b: bool): string {
    if b then "true" else "false"
  }

  predicate ClaimMatches(claims: Claims, claim: string, values: seq<string>, matchAny: bool) {
    claim in claims &&
    match claims[claim]
    case AString(s) => s in values
    case AStrings(items) =>
      if matchAny then exists i :: 0 <= i < |items| && items[i] in values
      else forall i :: 0 <= i < |items| ==> items[i] in values
    case ABool(b) => PrintBool(b) in values
    case _ => false
  }

  // ---- Templates ----

  function RenderAttribute(v: Attribute): string {
    match v
    case AString(s) => s
    case AStrings(items) => if items == [] then "" else items[0]
    case AInteger(i) => PrintInt(i)
    case ABool(b) => PrintBool(b)
    case AFloat(printed) => printed
    case ANull => ""
  }

  function Claimed(claims: Claims, key: string): string {
    if key in claims then RenderAttribute(claims[key]) else ""
  }

  predicate OpensAt(s: string, i: int) {
    0 <= i && i + 1 < |s| && s[i] == '$' && s[i + 1] == '{'
  }

  /** The first `${`. */
  function FindOpen(s: string): (r: Option<nat>)
    ensures r.Some? ==> OpensAt(s, r.value) && forall i :: 0 <= i < r.value ==> !OpensAt(s, i)
    ensures r.None? ==> forall i :: !OpensAt(s, i)
  {
    if |s| < 2 then None
    else if OpensAt(s, 0) then Some(0)
    else
      assert forall i :: i > 0 ==> OpensAt(s, i) == OpensAt(s[1..], i - 1);
      match FindOpen(s[1..])
      case Some(i) => Some(i + 1)
      case None => None
  }

  function FindClose(s: string): (r: Option<nat>)
    ensures r.Some? ==> r.value < |s| && s[r.value] == '}' && '}' !in s[..r.value]
    ensures r.None? ==> '}' !in s
  {
    if s == [] then None
    else if s[0] == '}' then Some(0)
    else
      match FindClose(s[1..])
      case Some(i) =>
        assert s[..i + 1] == [s[0]] + s[1..][..i];
        Some(i + 1)
      case None =>
        assert s == [s[0]] + s[1..];
        None
  }

  /** What comes next in a template: no `${`, a closed placeholder, or a `${` that is never closed. */
  datatype Scan =
    | Plain
    | Placeholder(before: string, key: string, tail: string)
    | Unclosed(before: string, unclosed: string)

  function ScanNext(rest: string): (r: Scan)
    ensures r.Placeholder? ==> |r.tail| < |rest|
  {
    match FindOpen(rest)
    case None => Plain
    case Some(start) =>
      var after := rest[start + 2..];
      match FindClose(after)
      case Some(end) => Placeholder(rest[..start], after[..end], after[end + 1..])
      case None => Unclosed(rest[..start], rest[start..])
  }

  /** What the source computes: an unclosed `${` makes it emit the remaining text twice. */
  function Expand(rest: string, claims: Claims): string
    decreases |rest|
  {
    match ScanNext(rest)
    case Plain => rest
    case Placeholder(before, key, tail) => before + Claimed(claims, key) + Expand(tail, claims)
    case Unclosed(before, unclosed) => before + unclosed + rest
  }

  /** The same with an unclosed `${` left as it stands. */
  function ExpandOnce(rest: string, claims: Claims): string
    decreases |rest|
  {
    match ScanNext(rest)
    case Plain => rest
    case Placeholder(before, key, tail) => before + Claimed(claims, key) + ExpandOnce(tail, claims)
    case Unclosed(_, _) => rest
  }

  lemma Regroup(a: string, b: string, c: string, d: string)
    ensures a + (b + c + d) == ((a + b) + c) + d
  {
  }

  method ExpandTemplate(template: string, claims: Claims) returns (out: string)
    ensures out == Expand(template, claims)
  {
    hide Claimed, FindOpen, FindClose;
    out := "";
    var rest := template;
    ghost var target := Expand(template, claims);
    while true
      invariant out + Expand(rest, claims) == target
      decreases |rest|
    {
      match FindOpen(rest) {
        case None =>
          out := out + rest;
          return;
        case Some(start) =>
          var after := rest[start + 2..];
          match FindClose(after) {
            case Some(end) =>
              Regroup(out, rest[..start], Claimed(claims, after[..end]), Expand(after[end + 1..], claims));
              out := out + rest[..start];
              out := out + Claimed(claims, after[..end]);
              rest := after[end + 1..];
            case None =>
              Regroup(out, rest[..start], rest[start..], rest);
              out := out + rest[..start];
              out := out + rest[start..];
              out := out + rest;
              return;
          }
      }
    }
  }

  /** A `${` with no `}` anywhere after it. */
  ghost predicate HasUnclosed(s: string) {
    exists i :: UnclosedAt(s, i)
  }

  ghost predicate UnclosedAt(s: string, i: int) {
    OpensAt(s, i) && '}' !in s[i + 2..]
  }

  /** An unclosed placeholder of the whole text is one of what remains after a closed placeholder. */
  lemma UnclosedMovesOn(s: string, start: nat, end: nat)
    requires OpensAt(s, start) && start + 2 + end < |s| && s[start + 2 + end] == '}'
    ensures HasUnclosed(s) <==> HasUnclosed(s[start + 2 + end + 1..])
  {
    var cut := start + 2 + end + 1;
    var rest := s[cut..];
    if i :| UnclosedAt(s, i) {
      assert cut <= i;
      assert rest[i - cut + 2..] == s[i + 2..];
      assert UnclosedAt(rest, i - cut);
    }
    if j :| UnclosedAt(rest, j) {
      assert s[cut + j + 2..] == rest[j + 2..];
      assert UnclosedAt(s, cut + j);
    }
  }

  /** What the next piece says about unclosed placeholders. */
  lemma ScanTells(s: string)
    ensures match ScanNext(s)
            case Plain => !HasUnclosed(s)
            case Placeholder(_, _, tail) => HasUnclosed(s) <==> HasUnclosed(tail)
            case Unclosed(before, unclosed) => HasUnclosed(s) && |before| + |unclosed| == |s| > 0
  {
    hide FindOpen, FindClose;
    match FindOpen(s) {
      case None =>
      case Some(start) =>
        var after := s[start + 2..];
        match FindClose(after) {
          case Some(end) =>
            UnclosedMovesOn(s, start, end);
            assert after[end + 1..] == s[start + 2 + end + 1..];
          case None =>
            assert UnclosedAt(s, start);
        }
    }
  }

  /** The source expands a template as one would expect exactly when every `${` in it is closed. */
  lemma {:induction false} ExpandsProperlyIffClosed(t: string, claims: Claims)
    ensures Expand(t, claims) == ExpandOnce(t, claims) <==> !HasUnclosed(t)
    ensures |Expand(t, claims)| >= |ExpandOnce(t, claims)|
    decreases |t|
  {
    hide Claimed, HasUnclosed, ScanNext;
    ScanTells(t);
    match ScanNext(t) {
      case Plain =>
      case Placeholder(before, key, tail) =>
        ExpandsProperlyIffClosed(tail, claims);
        SameFront(before + Claimed(claims, key), Expand(tail, claims), ExpandOnce(tail, claims));
      case Unclosed(before, unclosed) =>
        assert |Expand(t, claims)| == |before| + |unclosed| + |t|;
    }
  }

  /** A text whose first `${` is never closed comes out twice. */
  lemma UnclosedComesTwice(head: string, rest: string, claims: Claims)
    requires (forall i :: !OpensAt(head, i)) && '}' !in rest
    ensures Expand(head + "${" + rest, claims) == (head + "${" + rest) + (head + "${" + rest)
  {
    var t := head + "${" + rest;
    OpensFirstAt(head, rest);
    hide FindOpen, FindClose, OpensAt;
    assert t[|head| + 2..] == rest;
    assert t[..|head|] + t[|head|..] == t;
  }

  lemma SameFront(front: string, x: string, y: string)
    ensures front + x == front + y <==> x == y
  {
    if front + x == front + y {
      assert x == (front + x)[|front|..] == (front + y)[|front|..] == y;
    }
  }

  /** A closed placeholder is replaced by its claim, and the rest is expanded in the same way. */
  lemma PlaceholderLaw(head: string, key: string, tail: string, claims: Claims)
    requires (forall i :: !OpensAt(head, i)) && '}' !in key
    ensures Expand(head + "${" + key + "}" + tail, claims) == head + Claimed(claims, key) + Expand(tail, claims)
  {
    hide Claimed, ScanNext;
    ScanFinds(head, key, tail);
  }

  lemma ScanFinds(head: string, key: string, tail: string)
    requires (forall i :: !OpensAt(head, i)) && '}' !in key
    ensures ScanNext(head + "${" + key + "}" + tail) == Placeholder(head, key, tail)
  {
    var t := head + "${" + key + "}" + tail;
    var after := key + "}" + tail;
    assert t == head + "${" + after;
    OpensFirstAt(head, after);
    hide OpensAt, FindOpen, FindClose;
    assert t[|head| + 2..] == after && t[..|head|] == head;
    assert after[..|key|] == key && after[|key|] == '}' && after[|key| + 1..] == tail;
  }

  lemma OpensFirstAt(head: string, after: string)
    requires forall i :: !OpensAt(head, i)
    ensures FindOpen(head + "${" + after) == Some(|head|)
  {
    var t := head + "${" + after;
    hide FindOpen;
    assert OpensAt(t, |head|);
    forall i | 0 <= i < |head|
      ensures !OpensAt(t, i)
    {
      assert !OpensAt(head, i);
    }
  }

  // ---- One mapper ----

  predicate OrgListed(orgs: seq<OrgAssignment>, alias: string) {
    exists i :: 0 <= i < |orgs| && orgs[i].orgAlias == alias
  }

  function ApplyOne(kind: Kind, claims: Claims, draft: Draft): Draft {
    match kind
    case ClaimToAttribute(claim, attribute, overwrite) =>
      if claim in claims && (overwrite || attribute !in draft.attributes)
      then draft.(attributes := draft.attributes[attribute := claims[claim]]) else draft
    case ClaimToRole(claim, values, matchAny, role) =>
      if ClaimMatches(claims, claim, values, matchAny) && role !in draft.roles
      then draft.(roles := draft.roles + [role]) else draft
    case ClaimToOrg(claim, values, matchAny, alias, role) =>
      if ClaimMatches(claims, claim, values, matchAny) && !OrgListed(draft.orgs, alias)
      then draft.(orgs := draft.orgs + [OrgAssignment(alias, role)]) else draft
    case UsernameTemplate(template) =>
      var resolved := Expand(template, claims);
      if resolved != "" then draft.(username := Some(resolved)) else draft
    case EmailVerifiedPassthrough =>
      if "email_verified" in claims && claims["email_verified"].ABool?
      then draft.(emailVerified := claims["email_verified"].b) else draft
  }

  // ---- The pipeline ----

  ghost predicate Sorted(s: seq<Binding>) {
    forall i, j :: 0 <= i < j < |s| ==> s[i].priority <= s[j].priority
  }

  /** Stable insertion: behind everything of the same or a lower priority number. */
  function Insert(b: Binding, s: seq<Binding>): seq<Binding> {
    if s == [] then [b]
    else
      var last := s[|s| - 1];
      if last.priority <= b.priority then s + [b] else Insert(b, s[..|s| - 1]) + [last]
  }

  lemma {:induction false} InsertKeepsAll(b: Binding, s: seq<Binding>)
    ensures multiset(Insert(b, s)) == multiset(s) + multiset{b}
  {
    if s == [] {
    } else {
      assert s == s[..|s| - 1] + [s[|s| - 1]];
      InsertKeepsAll(b, s[..|s| - 1]);
    }
  }

  lemma {:induction false} InsertSorted(b: Binding, s: seq<Binding>)
    requires Sorted(s)
    ensures Sorted(Insert(b, s))
  {
    if s == [] {
    } else {
      var init, last := s[..|s| - 1], s[|s| - 1];
      InsertSorted(b, init);
      InsertKeepsAll(b, init);
      var r := Insert(b, init);
      forall i | 0 <= i < |r| && last.priority > b.priority
        ensures r[i].priority <= last.priority
      {
        assert r[i] in multiset(r);
        assert r[i] in init || r[i] == b;
      }
    }
  }

  /** The bindings in ascending priority, ties in list order. */
  function SortByPriority(bindings: seq<Binding>): seq<Binding> {
    if bindings == [] then []
    else Insert(bindings[|bindings| - 1], SortByPriority(bindings[..|bindings| - 1]))
  }

  lemma {:induction false} SortLaws(bindings: seq<Binding>)
    ensures Sorted(SortByPriority(bindings)) && multiset(SortByPriority(bindings)) == multiset(bindings)
  {
    hide Insert;
    if bindings == [] {
    } else {
      var init, last := bindings[..|bindings| - 1], bindings[|bindings| - 1];
      SortLaws(init);
      InsertSorted(last, SortByPriority(init));
      InsertKeepsAll(last, SortByPriority(init));
      assert bindings == init + [last];
    }
  }

  function WithPriority(s: seq<Binding>, p: int): seq<Binding> {
    if s == [] then []
    else WithPriority(s[..|s| - 1], p) + if s[|s| - 1].priority == p then [s[|s| - 1]] else []
  }

  lemma WithPrioritySnoc(s: seq<Binding>, b: Binding, p: int)
    ensures WithPriority(s + [b], p) == WithPriority(s, p) + if b.priority == p then [b] else []
  {
    assert (s + [b])[..|s|] == s;
  }

  lemma {:induction false} InsertStable(b: Binding, s: seq<Binding>, p: int)
    ensures WithPriority(Insert(b, s), p) == WithPriority(s + [b], p)
  {
    hide WithPriority;
    if s == [] {
      assert s + [b] == [b];
    } else if s[|s| - 1].priority > b.priority {
      var init, last := s[..|s| - 1], s[|s| - 1];
      assert s == init + [last];
      InsertStable(b, init, p);
      WithPrioritySnoc(init, b, p);
      WithPrioritySnoc(init, last, p);
      WithPrioritySnoc(Insert(b, init), last, p);
      WithPrioritySnoc(s, b, p);
      NothingAdded(WithPriority(init, p), b);
      NothingAdded(WithPriority(init, p), last);
    }
  }

  lemma NothingAdded(s: seq<Binding>, b: Binding)
    ensures s + [] == s && (s + []) + [b] == (s + [b]) + []
  {
  }

  /** Sorting is stable: bindings of equal priority keep their order. */
  lemma {:induction false} SortStable(bindings: seq<Binding>, p: int)
    ensures WithPriority(SortByPriority(bindings), p) == WithPriority(bindings, p)
  {
    if bindings == [] {
    } else {
      var init, last := bindings[..|bindings| - 1], bindings[|bindings| - 1];
      SortStable(init, p);
      InsertStable(last, SortByPriority(init), p);
      WithPrioritySnoc(SortByPriority(init), last, p);
    }
  }

  function ApplyInOrder(bindings: seq<Binding>, claims: Claims, draft: Draft): Draft {
    if bindings == [] then draft
    else ApplyOne(bindings[|bindings| - 1].kind, claims, ApplyInOrder(bindings[..|bindings| - 1], claims, draft))
  }

  function ApplyAll(bindings: seq<Binding>, claims: Claims, draft: Draft): Draft {
    ApplyInOrder(SortByPriority(bindings), claims, draft)
  }

  ghost predicate DistinctPriorities(s: seq<Binding>) {
    forall i, j :: 0 <= i < j < |s| ==> s[i].priority != s[j].priority
  }

  /** Equal priority means the same binding. */
  ghost predicate Keyed(s: seq<Binding>) {
    forall x, y :: x in s && y in s && x.priority == y.priority ==> x == y
  }

  /** Two sorted lists of the same bindings, with no two priorities alike, are the same list. */
  lemma {:induction false} SortedUnique(a: seq<Binding>, b: seq<Binding>)
    requires Sorted(a) && Sorted(b) && multiset(a) == multiset(b)
    requires Keyed(a)
    ensures a == b
    decreases |a|
  {
    hide Sorted, Keyed;
    assert |a| == |multiset(a)| == |multiset(b)| == |b|;
    if a == [] {
    } else {
      var n := |a| - 1;
      LastsAgree(a, b);
      DropLast(a);
      DropLast(b);
      SortedUnique(a[..n], b[..n]);
      assert a == a[..n] + [a[n]] && b == b[..n] + [b[n]];
    }
  }

  lemma DropLast(s: seq<Binding>)
    requires s != []
    ensures multiset(s[..|s| - 1]) == multiset(s) - multiset{s[|s| - 1]}
    ensures Sorted(s) ==> Sorted(s[..|s| - 1])
    ensures Keyed(s) ==> Keyed(s[..|s| - 1])
  {
    assert s == s[..|s| - 1] + [s[|s| - 1]];
    assert forall x :: x in s[..|s| - 1] ==> x in s;
  }

  lemma LastsAgree(a: seq<Binding>, b: seq<Binding>)
    requires a != [] && |a| == |b| && Sorted(a) && Sorted(b) && multiset(a) == multiset(b)
    requires Keyed(a)
    ensures a[|a| - 1] == b[|b| - 1]
  {
    var x, y := a[|a| - 1], b[|b| - 1];
    assert x in multiset(b) && y in multiset(a);
    var i :| 0 <= i < |b| && b[i] == x;
    var j :| 0 <= j < |a| && a[j] == y;
    assert x.priority <= y.priority && y.priority <= x.priority;
  }

  lemma SamePriorityMeansSame(s: seq<Binding>, t: seq<Binding>, x: Binding, y: Binding)
    requires DistinctPriorities(s) && multiset(s) == multiset(t) && x in t && y in t && x.priority == y.priority
    ensures x == y
  {
    assert x in multiset(t) && y in multiset(t);
    assert x in s && y in s;
  }

  /**
   With pairwise distinct priorities the mapped draft does not depend on the order in which the
   bindings are listed.
   */
  lemma OrderOfListingIrrelevant(a: seq<Binding>, b: seq<Binding>, claims: Claims, draft: Draft)
    requires multiset(a) == multiset(b) && DistinctPriorities(a)
    ensures ApplyAll(a, claims, draft) == ApplyAll(b, claims, draft)
  {
    var x, y := SortByPriority(a), SortByPriority(b);
    SortLaws(a);
    SortLaws(b);
    forall p, q | p in x && q in x && p.priority == q.priority
      ensures p == q
    {
      SamePriorityMeansSame(a, x, p, q);
    }
    assert Keyed(x);
    SortedUnique(x, y);
  }

  ghost predicate DistinctOrgs(orgs: seq<OrgAssignment>) {
    forall i, j :: 0 <= i < j < |orgs| ==> orgs[i].orgAlias != orgs[j].orgAlias
  }

  predicate Grants(kind: Kind, claims: Claims, role: string) {
    kind.ClaimToRole? && kind.role == role && ClaimMatches(claims, kind.claim, kind.values, kind.matchAny)
  }

  predicate Joins(kind: Kind, claims: Claims, alias: string) {
    kind.ClaimToOrg? && kind.orgAlias == alias && ClaimMatches(claims, kind.claim, kind.values, kind.matchAny)
  }

  /** Some binding grants `role`: its claim predicate holds. */
  ghost predicate Granted(bindings: seq<Binding>, claims: Claims, role: string) {
    exists b :: b in bindings && Grants(b.kind, claims, role)
  }

  /** Some binding puts the user into the organization. */
  ghost predicate Joined(bindings: seq<Binding>, claims: Claims, alias: string) {
    exists b :: b in bindings && Joins(b.kind, claims, alias)
  }

  /** Roles and aliases are duplicate-free, extend the initial ones, and are exactly those and what bindings add. */
  ghost predicate Mapped(bindings: seq<Binding>, claims: Claims, draft: Draft, r: Draft) {
    && NoDuplicates(r.roles) && DistinctOrgs(r.orgs)
    && draft.roles <= r.roles && draft.orgs <= r.orgs
    && (forall role :: role in r.roles <==> role in draft.roles || Granted(bindings, claims, role))
    && (forall alias :: OrgListed(r.orgs, alias) <==> OrgListed(draft.orgs, alias) || Joined(bindings, claims, alias))
  }

  lemma GrantsOneMore(bindings: seq<Binding>, claims: Claims, x: string)
    requires bindings != []
    ensures var init, last := bindings[..|bindings| - 1], bindings[|bindings| - 1].kind;
            && (Granted(bindings, claims, x) <==> Granted(init, claims, x) || Grants(last, claims, x))
            && (Joined(bindings, claims, x) <==> Joined(init, claims, x) || Joins(last, claims, x))
  {
    hide Grants, Joins;
    assert bindings == bindings[..|bindings| - 1] + [bindings[|bindings| - 1]];
  }

  /** One mapper adds what it grants and nothing else. */
  lemma OneMapper(kind: Kind, claims: Claims, draft: Draft)
    ensures var r := ApplyOne(kind, claims, draft);
            && draft.roles <= r.roles && draft.orgs <= r.orgs
            && (NoDuplicates(draft.roles) ==> NoDuplicates(r.roles))
            && (DistinctOrgs(draft.orgs) ==> DistinctOrgs(r.orgs))
            && (forall role :: role in r.roles <==> role in draft.roles || Grants(kind, claims, role))
            && (forall alias ::
                  OrgListed(r.orgs, alias) <==> OrgListed(draft.orgs, alias) || Joins(kind, claims, alias))
  {
    hide ClaimMatches, Expand;
    var r := ApplyOne(kind, claims, draft);
    assert forall i :: 0 <= i < |draft.orgs| ==> r.orgs[i] == draft.orgs[i];
    if r.orgs != draft.orgs {
      assert r.orgs[|draft.orgs|].orgAlias == kind.orgAlias;
    }
  }

  lemma {:induction false} RolesInOrder(bindings: seq<Binding>, claims: Claims, draft: Draft)
    requires NoDuplicates(draft.roles) && DistinctOrgs(draft.orgs)
    ensures Mapped(bindings, claims, draft, ApplyInOrder(bindings, claims, draft))
    decreases |bindings|
  {
    hide ApplyOne, Grants, Joins, OrgListed, Granted, Joined, NoDuplicates, DistinctOrgs;
    if bindings == [] {
      assert forall x :: !Granted([], claims, x) && !Joined([], claims, x) by { NobodyGrants(claims); }
    } else {
      var init, last := bindings[..|bindings| - 1], bindings[|bindings| - 1];
      RolesInOrder(init, claims, draft);
      OneMapper(last.kind, claims, ApplyInOrder(init, claims, draft));
      forall x { GrantsOneMore(bindings, claims, x); }
    }
  }

  lemma NobodyGrants(claims: Claims)
    ensures forall x :: !Granted([], claims, x) && !Joined([], claims, x)
  {
  }

  /**
   Roles and organization aliases stay duplicate-free and are never taken away. Whatever the priorities,
   they are exactly the initial ones and those some listed binding adds.
   */
  lemma PipelineRoles(bindings: seq<Binding>, claims: Claims, draft: Draft)
    requires NoDuplicates(draft.roles) && DistinctOrgs(draft.orgs)
    ensures Mapped(bindings, claims, draft, ApplyAll(bindings, claims, draft))
  {
    hide Mapped, NoDuplicates, DistinctOrgs, ApplyInOrder, SortByPriority;
    var sorted := SortByPriority(bindings);
    SortLaws(bindings);
    RolesInOrder(sorted, claims, draft);
    forall b
      ensures b in sorted <==> b in bindings
    {
      assert b in multiset(sorted) <==> b in multiset(bindings);
    }
    SameBindings(sorted, bindings, claims, draft, ApplyInOrder(sorted, claims, draft));
  }

  lemma SameBindings(a: seq<Binding>, b: seq<Binding>, claims: Claims, draft: Draft, r: Draft)
    requires (forall x :: x in a <==> x in b) && Mapped(a, claims, draft, r)
    ensures Mapped(b, claims, draft, r)
  {
    hide NoDuplicates, DistinctOrgs, Grants, Joins, OrgListed;
    assert forall x :: Granted(a, claims, x) <==> Granted(b, claims, x);
    assert forall x :: Joined(a, claims, x) <==> Joined(b, claims, x);
  }

  // ---- What the pipeline makes of attributes, user name, email and organization roles ----

  /** The texts a claim can be matched by; numbers and null have none. */
  function Texts(v: Attribute): seq<string> {
    match v
    case AString(s) => [s]
    case AStrings(items) => items
    case ABool(b) => [if b then "true" else "false"]
    case _ => []
  }

  /** A claim matches if one of its texts is asked for or, when all must match, every text of a textual claim is. */
  lemma ClaimMatchesExact(claims: Claims, claim: string, values: seq<string>, matchAny: bool)
    ensures ClaimMatches(claims, claim, values, matchAny) <==>
              && claim in claims
              && var v := claims[claim];
              if matchAny then exists t :: t in Texts(v) && t in values
              else (v.AString? || v.AStrings? || v.ABool?) && forall t :: t in Texts(v) ==> t in values
  {
    if claim in claims {
      var texts := Texts(claims[claim]);
      assert forall t :: t in texts <==> exists i :: 0 <= i < |texts| && texts[i] == t;
      if matchAny && claims[claim].AStrings? && exists i :: 0 <= i < |texts| && texts[i] in values {
        var i :| 0 <= i < |texts| && texts[i] in values;
        assert texts[i] in texts;
      }
      if !claims[claim].AStrings? && texts != [] {
        assert texts[0] in texts;
      }
    }
  }

  predicate WritesTo(kind: Kind, claims: Claims, name: string) {
    kind.ClaimToAttribute? && kind.attribute == name && kind.claim in claims
  }

  function Writer(claims: Claims, name: string): Binding -> bool {
    (b: Binding) => WritesTo(b.kind, claims, name)
  }

  function Overwriter(claims: Claims, name: string): Binding -> bool {
    (b: Binding) => WritesTo(b.kind, claims, name) && b.kind.overwrite
  }

  function Valued(m: map<string, Attribute>, name: string): Option<Attribute> {
    if name in m then Some(m[name]) else None
  }

  /**
   An attribute is that of the last overwriting mapper; without one it is the initial one; without that
   either it is that of the first mapper that writes it, if any does.
   */
  ghost predicate AttributeFrom(bs: seq<Binding>, claims: Claims, initial: Option<Attribute>, name: string,
                                value: Option<Attribute>) {
    && (forall i: nat :: LastAt(bs, Overwriter(claims, name), i) ==> value == Valued(claims, bs[i].kind.claim))
    && (NoneHolds(bs, Overwriter(claims, name)) && initial.Some? ==> value == initial)
    && (NoneHolds(bs, Overwriter(claims, name)) && initial.None? ==>
          forall i: nat :: FirstAt(bs, Writer(claims, name), i) ==> value == Valued(claims, bs[i].kind.claim))
    && (NoneHolds(bs, Writer(claims, name)) && initial.None? ==> value.None?)
  }

  lemma AttributeOneMore(bs: seq<Binding>, claims: Claims, initial: Option<Attribute>, name: string,
                         before: Option<Attribute>, value: Option<Attribute>)
    requires bs != [] && AttributeFrom(bs[..|bs| - 1], claims, initial, name, before)
    requires (initial.Some? || !NoneHolds(bs[..|bs| - 1], Writer(claims, name))) <==> before.Some?
    requires var kind := bs[|bs| - 1].kind;
             value == if WritesTo(kind, claims, name) && (kind.overwrite || before.None?) then Some(claims[kind.claim])
                      else before
    ensures AttributeFrom(bs, claims, initial, name, value)
    ensures (initial.Some? || !NoneHolds(bs, Writer(claims, name))) <==> value.Some?
  {
    hide NoneHolds, LastAt, FirstAt;
    var over, write := Overwriter(claims, name), Writer(claims, name);
    OneMore(bs, over, 0);
    OneMore(bs, write, 0);
    forall i: nat | LastAt(bs, over, i)
      ensures i < |bs| && WritesTo(bs[i].kind, claims, name) && value == Valued(claims, bs[i].kind.claim)
    {
      IsThere(bs, over, i);
      OneMore(bs, over, i);
    }
    forall i: nat | FirstAt(bs, write, i) && NoneHolds(bs, over) && initial.None?
      ensures i < |bs| && WritesTo(bs[i].kind, claims, name) && value == Valued(claims, bs[i].kind.claim)
    {
      IsThere(bs, write, i);
      OneMore(bs, write, i);
      if i < |bs| - 1 {
        SomeHolds(bs[..|bs| - 1], write, i);
      }
    }
  }

  lemma SomeHolds(bs: seq<Binding>, p: Binding -> bool, i: nat)
    requires FirstAt(bs, p, i)
    ensures !NoneHolds(bs, p)
  {
  }

  lemma {:induction false} AttributesInOrder(bs: seq<Binding>, claims: Claims, draft: Draft, name: string)
    ensures var value := Valued(ApplyInOrder(bs, claims, draft).attributes, name);
            var initial := Valued(draft.attributes, name);
            && AttributeFrom(bs, claims, initial, name, value)
            && ((initial.Some? || !NoneHolds(bs, Writer(claims, name))) <==> value.Some?)
    decreases |bs|
  {
    if bs == [] {
    } else {
      var init, last := bs[..|bs| - 1], bs[|bs| - 1];
      AttributesInOrder(init, claims, draft, name);
      hide AttributeFrom, NoneHolds, ClaimMatches, Expand, OrgListed;
      var before, after := ApplyInOrder(init, claims, draft), ApplyInOrder(bs, claims, draft);
      AttributeOneMore(bs, claims, Valued(draft.attributes, name), name,
                       Valued(before.attributes, name), Valued(after.attributes, name));
    }
  }

  predicate NamesUser(kind: Kind, claims: Claims) {
    kind.UsernameTemplate? && Expand(kind.template, claims) != ""
  }

  function Namer(claims: Claims): Binding -> bool {
    (b: Binding) => NamesUser(b.kind, claims)
  }

  /** The user name is what the last template that expands to something gives, else the initial one. */
  ghost predicate UsernameFrom(bs: seq<Binding>, claims: Claims, initial: Option<string>, name: Option<string>) {
    && (NoneHolds(bs, Namer(claims)) ==> name == initial)
    && (forall i: nat :: LastAt(bs, Namer(claims), i) ==> name == Some(Expand(bs[i].kind.template, claims)))
  }

  lemma UsernameOneMore(bs: seq<Binding>, claims: Claims, initial: Option<string>, before: Option<string>,
                        name: Option<string>)
    requires bs != [] && UsernameFrom(bs[..|bs| - 1], claims, initial, before)
    requires var kind := bs[|bs| - 1].kind;
             name == if NamesUser(kind, claims) then Some(Expand(kind.template, claims)) else before
    ensures UsernameFrom(bs, claims, initial, name)
  {
    hide NoneHolds, LastAt, Expand;
    OneMore(bs, Namer(claims), 0);
    forall i: nat | LastAt(bs, Namer(claims), i)
      ensures i < |bs| && NamesUser(bs[i].kind, claims) && name == Some(Expand(bs[i].kind.template, claims))
    {
      IsThere(bs, Namer(claims), i);
      OneMore(bs, Namer(claims), i);
    }
  }

  lemma {:induction false} UsernameInOrder(bs: seq<Binding>, claims: Claims, draft: Draft)
    ensures UsernameFrom(bs, claims, draft.username, ApplyInOrder(bs, claims, draft).username)
    decreases |bs|
  {
    if bs == [] {
    } else {
      var init := bs[..|bs| - 1];
      UsernameInOrder(init, claims, draft);
      hide UsernameFrom, ClaimMatches, Expand, OrgListed;
      UsernameOneMore(bs, claims, draft.username, ApplyInOrder(init, claims, draft).username,
                      ApplyInOrder(bs, claims, draft).username);
    }
  }

  ghost predicate PassesEmail(bs: seq<Binding>) {
    exists b :: b in bs && b.kind.EmailVerifiedPassthrough?
  }

  /** The verified flag is the claim's if it is a boolean and some binding passes it through; the email stays. */
  lemma {:induction false} EmailInOrder(bs: seq<Binding>, claims: Claims, draft: Draft)
    ensures var r := ApplyInOrder(bs, claims, draft);
            && r.email == draft.email
            && r.emailVerified == if PassesEmail(bs) && "email_verified" in claims && claims["email_verified"].ABool?
                                  then claims["email_verified"].b else draft.emailVerified
    decreases |bs|
  {
    if bs == [] {
    } else {
      EmailInOrder(bs[..|bs| - 1], claims, draft);
      hide ClaimMatches, Expand, OrgListed;
      assert bs == bs[..|bs| - 1] + [bs[|bs| - 1]];
    }
  }

  function Joiner(claims: Claims, alias: string): Binding -> bool {
    (b: Binding) => Joins(b.kind, claims, alias)
  }

  lemma ListedIffIn(orgs: seq<OrgAssignment>, alias: string)
    ensures OrgListed(orgs, alias) <==> exists o :: o in orgs && o.orgAlias == alias
  {
    if OrgListed(orgs, alias) {
      var i :| 0 <= i < |orgs| && orgs[i].orgAlias == alias;
      assert orgs[i] in orgs;
    }
  }

  /** A new organization comes with the role of the first binding that joins it. */
  lemma {:induction false} OrgRoleInOrder(bs: seq<Binding>, claims: Claims, draft: Draft, alias: string)
    requires !OrgListed(draft.orgs, alias)
    ensures var r := ApplyInOrder(bs, claims, draft);
            && (forall i: nat :: FirstAt(bs, Joiner(claims, alias), i) ==>
                  i < |bs| && bs[i].kind.ClaimToOrg? && OrgAssignment(alias, bs[i].kind.orgRole) in r.orgs)
            && (NoneHolds(bs, Joiner(claims, alias)) ==> !OrgListed(r.orgs, alias))
    decreases |bs|
  {
    if bs == [] {
    } else {
      var init, last := bs[..|bs| - 1], bs[|bs| - 1];
      OrgRoleInOrder(init, claims, draft, alias);
      OneMapper(last.kind, claims, ApplyInOrder(init, claims, draft));
      ListedIffIn(ApplyInOrder(init, claims, draft).orgs, alias);
      hide NoneHolds, FirstAt, ClaimMatches, Expand, OrgListed;
      OneMore(bs, Joiner(claims, alias), 0);
      forall i: nat | FirstAt(bs, Joiner(claims, alias), i)
        ensures i < |bs| && bs[i].kind.ClaimToOrg?
        ensures OrgAssignment(alias, bs[i].kind.orgRole) in ApplyInOrder(bs, claims, draft).orgs
      {
        IsThere(bs, Joiner(claims, alias), i);
        OneMore(bs, Joiner(claims, alias), i);
      }
    }
  }

  /** All of this holds of the whole pipeline, with the bindings in ascending priority. */
  lemma PipelineExact(bindings: seq<Binding>, claims: Claims, draft: Draft, name: string, alias: string)
    ensures var bs, r := SortByPriority(bindings), ApplyAll(bindings, claims, draft);
            && AttributeFrom(bs, claims, Valued(draft.attributes, name), name, Valued(r.attributes, name))
            && UsernameFrom(bs, claims, draft.username, r.username)
            && r.email == draft.email
            && r.emailVerified == (if PassesEmail(bs) && "email_verified" in claims && claims["email_verified"].ABool?
                                   then claims["email_verified"].b else draft.emailVerified)
            && (!OrgListed(draft.orgs, alias) ==>
                  forall i: nat :: FirstAt(bs, Joiner(claims, alias), i) ==>
                    i < |bs| && bs[i].kind.ClaimToOrg? && OrgAssignment(alias, bs[i].kind.orgRole) in r.orgs)
  {
    hide ApplyInOrder, SortByPriority, AttributeFrom, UsernameFrom, FirstAt, OrgListed, PassesEmail;
    var bs := SortByPriority(bindings);
    AttributesInOrder(bs, claims, draft, name);
    UsernameInOrder(bs, claims, draft);
    EmailInOrder(bs, claims, draft);
    if !OrgListed(draft.orgs, alias) {
      OrgRoleInOrder(bs, claims, draft, alias);
    }
  }

  /** How a claim is written into a template. */
  lemma RenderExact(v: Attribute)
    ensures v.AInteger? ==> ReadInt(RenderAttribute(v)) == Some(v.i)
    ensures v.AString? || v.ABool? ==> RenderAttribute(v) == Texts(v)[0]
    ensures v.AStrings? ==> RenderAttribute(v) == if v.items == [] then "" else v.items[0]
    ensures v.ANull? ==> RenderAttribute(v) == ""
  {
    if v.AInteger? {
      PrintIntReadsBack(v.i);
    }
  }

  /** The draft the pipeline fills in. */
  class DraftUser {
    var username: Option<string>
    var email: Option<string>
    var emailVerified: bool
    var attributes: map<string, Attribute>
    var roles: seq<string>
    var orgs: seq<OrgAssignment>

    constructor (seed: Draft)
      ensures View() == seed
    {
      username, email, emailVerified := seed.username, seed.email, seed.emailVerified;
      attributes, roles, orgs := seed.attributes, seed.roles, seed.orgs;
    }

    function View(): Draft
      reads this
    {
      Draft(username, email, emailVerified, attributes, roles, orgs)
    }

    method Map(kind: Kind, claims: Claims)
      modifies this
      ensures View() == ApplyOne(kind, claims, old(View()))
    {
      match kind {
        case ClaimToAttribute(claim, attribute, overwrite) =>
          if claim in claims {
            if overwrite || attribute !in attributes {
              attributes := attributes[attribute := claims[claim]];
            }
          }
        case ClaimToRole(claim, values, matchAny, role) =>
          if ClaimMatches(claims, claim, values, matchAny) && role !in roles {
            roles := roles + [role];
          }
        case ClaimToOrg(claim, values, matchAny, alias, role) =>
          if ClaimMatches(claims, claim, values, matchAny) {
            if !OrgListed(orgs, alias) {
              orgs := orgs + [OrgAssignment(alias, role)];
            }
          }
        case UsernameTemplate(template) =>
          var resolved := ExpandTemplate(template, claims);
          if resolved != "" {
            username := Some(resolved);
          }
        case EmailVerifiedPassthrough =>
          if "email_verified" in claims && claims["email_verified"].ABool? {
            emailVerified := claims["email_verified"].b;
          }
      }
    }

    method MapAll(bindings: seq<Binding>, claims: Claims)
      modifies this
      ensures View() == ApplyAll(bindings, claims, old(View()))
    {
      var sorted := SortByPriority(bindings);
      for i := 0 to |sorted|
        invariant View() == ApplyInOrder(sorted[..i], claims, old(View()))
      {
        assert sorted[..i + 1][..i] == sorted[..i];
        Map(sorted[i].kind, claims);
      }
      assert sorted[..|sorted|] == sorted;
    }
  }
}
