/** Cache keys, their printed form, and the invalidation payloads peers exchange. */
module CacheKeys {
  import opened Prelude

  /** A 128-bit identifier. */
  type RealmId = n: nat | n < 0x1_0000_0000_0000_0000_0000_0000_0000_0000

  datatype CacheClass =
    | Realm | Client | Flow | Theme | Spi | Jwks | Idp | Federation | User | UserProfile
    | Organization | SamlMetadata | ScimTarget | Agent | Negative

  datatype CacheKey = CacheKey(realm: RealmId, class_: CacheClass, id: string)

  datatype Prefix = Prefix(realm: RealmId, class_: CacheClass) {
    predicate Matches(key: CacheKey) {
      key.realm == realm && key.class_ == class_
    }
  }

  function AsStr(c: CacheClass): string {
    match c
    case Realm => "realm"
    case Client => "client"
    case Flow => "flow"
    case Theme => "theme"
    case Spi => "spi"
    case Jwks => "jwks"
    case Idp => "idp"
    case Federation => "federation"
    case User => "user"
    case UserProfile => "user-profile"
    case Organization => "organization"
    case SamlMetadata => "saml-metadata"
    case ScimTarget => "scim-target"
    case Agent => "agent"
    case Negative => "neg"
  }

  function ParseClass(s: string): Option<CacheClass> {
    if s == "realm" then Some(Realm)
    else if s == "client" then Some(Client)
    else if s == "flow" then Some(Flow)
    else if s == "theme" then Some(Theme)
    else if s == "spi" then Some(Spi)
    else if s == "jwks" then Some(Jwks)
    else if s == "idp" then Some(Idp)
    else if s == "federation" then Some(Federation)
    else if s == "user" then Some(User)
    else if s == "user-profile" then Some(UserProfile)
    else if s == "organization" then Some(Organization)
    else if s == "saml-metadata" then Some(SamlMetadata)
    else if s == "scim-target" then Some(ScimTarget)
    else if s == "agent" then Some(Agent)
    else if s == "neg" then Some(Negative)
    else None
  }

  // ---- Identifiers in Crockford base 32, 26 characters ----

  function Digit(d: nat): char
    requires d < 32
  {
    if d < 10 then (48 + d) as char
    else if d < 18 then (55 + d) as char
    else if d < 20 then (56 + d) as char
    else if d < 22 then (57 + d) as char
    else if d < 27 then (58 + d) as char
    else (59 + d) as char
  }

  /** The digit a character stands for; only the characters that printing produces are accepted. */
  function DigitValue(c: char): Option<nat> {
    var n := c as int;
    if 48 <= n <= 57 then Some(n - 48)
    else if 65 <= n <= 72 then Some(n - 55)
    else if 74 <= n <= 75 then Some(n - 56)
    else if 77 <= n <= 78 then Some(n - 57)
    else if 80 <= n <= 84 then Some(n - 58)
    else if 86 <= n <= 90 then Some(n - 59)
    else None
  }

  function Encode(n: nat, digits: nat): (s: string)
    ensures |s| == digits && ':' !in s
    decreases digits
  {
    if digits == 0 then [] else Encode(n / 32, digits - 1) + [Digit(n % 32)]
  }

  function Decode(s: string): Option<nat> {
    if s == [] then Some(0)
    else
      match (Decode(s[..|s| - 1]), DigitValue(s[|s| - 1]))
      case (Some(v), Some(d)) => Some(v * 32 + d)
      case _ => None
  }

  function Pow32(digits: nat): nat {
    if digits == 0 then 1 else Pow32(digits - 1) * 32
  }

  lemma {:induction false} DecodeEncode(n: nat, digits: nat)
    requires n < Pow32(digits)
    ensures Decode(Encode(n, digits)) == Some(n)
    decreases digits
  {
    if digits == 0 {
    } else {
      DecodeEncode(n / 32, digits - 1);
      var s := Encode(n, digits);
      assert s[..digits - 1] == Encode(n / 32, digits - 1);
    }
  }

  function PrintRealm(r: RealmId): string {
    Encode(r, 26)
  }

  function ParseRealm(s: string): Option<RealmId> {
    if |s| != 26 then None
    else
      match Decode(s)
      case Some(n) => if n < 0x1_0000_0000_0000_0000_0000_0000_0000_0000 then Some(n) else None
      case None => None
  }

  lemma RealmRoundTrip(r: RealmId)
    ensures ParseRealm(PrintRealm(r)) == Some(r)
  {
    var wide := Pow32(13);
    assert wide == 0x1_0000_0000_0000_0000 * 2;
    assert Pow32(26) == wide * wide by { Pow32Adds(13, 13); }
    DecodeEncode(r, 26);
  }

  lemma {:induction false} Pow32Adds(a: nat, b: nat)
    ensures Pow32(a + b) == Pow32(a) * Pow32(b)
    decreases b
  {
    if b == 0 {
    } else {
      Pow32Adds(a, b - 1);
      assert Pow32(a + b) == Pow32(a + (b - 1)) * 32;
      assert Pow32(a) * Pow32(b - 1) * 32 == Pow32(a) * (Pow32(b - 1) * 32);
    }
  }

  lemma ClassRoundTrip(c: CacheClass)
    ensures ParseClass(AsStr(c)) == Some(c) && ':' !in AsStr(c)
  {
  }

  // ---- Printing and cutting at colons ----

  function PrintKey(k: CacheKey): string {
    "g:" + PrintRealm(k.realm) + ":" + AsStr(k.class_) + ":" + k.id
  }

  /** The part before the first separator, and the part after it if there is one. */
  function Cut(s: string, sep: char): (r: (string, Option<string>))
    ensures sep !in r.0 && s == r.0 + (if r.1.Some? then [sep] + r.1.value else [])
  {
    if s == [] then ([], None)
    else if s[0] == sep then ([], Some(s[1..]))
    else
      var rest := Cut(s[1..], sep);
      ([s[0]] + rest.0, rest.1)
  }

  lemma {:induction false} CutAtFirst(head: string, sep: char, tail: string)
    requires sep !in head
    ensures Cut(head + [sep] + tail, sep) == (head, Some(tail))
  {
    var s := head + [sep] + tail;
    if head == [] {
      assert s[1..] == tail;
    } else {
      assert s[1..] == head[1..] + [sep] + tail;
      CutAtFirst(head[1..], sep, tail);
      assert head == [head[0]] + head[1..];
    }
  }

  /** The realm and class fields of a printed key or glob, whatever follows them. */
  function ParseFields(inner: string): Option<Prefix> {
    match Cut(inner, ':')
    case (_, None) => None
    case (realm, Some(rest)) =>
      match (ParseRealm(realm), ParseClass(Cut(rest, ':').0))
      case (Some(r), Some(c)) => Some(Prefix(r, c))
      case _ => None
  }

  function StripPrefix(s: string, prefix: string): Option<string> {
    if prefix <= s then Some(s[|prefix|..]) else None
  }

  /** Which (realm, class) an invalidation payload names, if any. */
  function Route(payload: string): Option<Prefix> {
    var head := Cut(payload, ':');
    if head.1.None? || (head.0 != "k" && head.0 != "p") then None
    else
      match StripPrefix(head.1.value, "g:")
      case Some(inner) => ParseFields(inner)
      case None => None
  }

  function KeyPayload(k: CacheKey): string {
    "k:" + PrintKey(k)
  }

  function PrefixPayload(p: Prefix): string {
    "p:g:" + PrintRealm(p.realm) + ":" + AsStr(p.class_) + ":*"
  }

  lemma FieldsRoundTrip(r: RealmId, c: CacheClass, tail: string)
    ensures ParseFields(PrintRealm(r) + ":" + AsStr(c) + ":" + tail) == Some(Prefix(r, c))
  {
    var realm, class_ := PrintRealm(r), AsStr(c);
    hide PrintRealm, AsStr, ParseRealm, ParseClass;
    assert realm + ":" + class_ + ":" + tail == realm + [':'] + (class_ + [':'] + tail);
    RealmHasNoColon(r);
    ClassRoundTrip(c);
    RealmRoundTrip(r);
    CutAtFirst(realm, ':', class_ + [':'] + tail);
    CutAtFirst(class_, ':', tail);
  }

  lemma RealmHasNoColon(r: RealmId)
    ensures ':' !in PrintRealm(r)
  {
  }

  /** A published key payload names exactly the key's realm and class, even if the id contains colons. */
  lemma KeyPayloadRoutes(k: CacheKey)
    ensures Route(KeyPayload(k)) == Some(Prefix(k.realm, k.class_))
  {
    var realm, class_ := PrintRealm(k.realm), AsStr(k.class_);
    var inner := realm + ":" + class_ + ":" + k.id;
    hide PrintRealm, AsStr, ParseFields;
    assert KeyPayload(k) == "k" + [':'] + ("g:" + inner);
    CutAtFirst("k", ':', "g:" + inner);
    assert ("g:" + inner)[2..] == inner;
    FieldsRoundTrip(k.realm, k.class_, k.id);
  }

  lemma PrefixPayloadRoutes(p: Prefix)
    ensures Route(PrefixPayload(p)) == Some(p)
  {
    var realm, class_ := PrintRealm(p.realm), AsStr(p.class_);
    var inner := realm + ":" + class_ + ":" + "*";
    hide PrintRealm, AsStr, ParseFields;
    assert PrefixPayload(p) == "p" + [':'] + ("g:" + inner);
    CutAtFirst("p", ':', "g:" + inner);
    assert ("g:" + inner)[2..] == inner;
    FieldsRoundTrip(p.realm, p.class_, "*");
  }

  /** Printed keys determine the key: realm, class and id. */
  lemma PrintKeyInjective(a: CacheKey, b: CacheKey)
    requires PrintKey(a) == PrintKey(b)
    ensures a == b
  {
    KeyPayloadRoutes(a);
    KeyPayloadRoutes(b);
    assert KeyPayload(a) == KeyPayload(b);
    var head := "g:" + PrintRealm(a.realm) + ":" + AsStr(a.class_) + ":";
    hide PrintRealm, AsStr, Route;
    assert PrintKey(a) == head + a.id && PrintKey(b) == head + b.id;
    assert a.id == PrintKey(a)[|head|..] && b.id == PrintKey(b)[|head|..];
  }

  /** Nothing else is acted on: a payload that names a class is `k:` or `p:`, `g:`, a realm, a class name. */
  lemma RouteSound(payload: string) returns (verb: string, realm: string, rest: string)
    requires Route(payload).Some?
    ensures verb == "k" || verb == "p"
    ensures ParseRealm(realm) == Some(Route(payload).value.realm)
    ensures payload == verb + ":" + ("g:" + (realm + ":" + (AsStr(Route(payload).value.class_) + rest)))
    ensures rest == "" || rest[0] == ':'
  {
    hide ParseFields, ParseRealm, AsStr;
    var head := Cut(payload, ':');
    var inner := StripPrefix(head.1.value, "g:").value;
    assert head.1.value == "g:" + inner;
    verb := head.0;
    realm, rest := FieldsSound(inner);
  }

  lemma FieldsSound(inner: string) returns (realm: string, rest: string)
    requires ParseFields(inner).Some?
    ensures ParseRealm(realm) == Some(ParseFields(inner).value.realm)
    ensures inner == realm + ":" + (AsStr(ParseFields(inner).value.class_) + rest)
    ensures rest == "" || rest[0] == ':'
  {
    hide ParseRealm, ParseClass, AsStr;
    var fields := Cut(inner, ':');
    var last := Cut(fields.1.value, ':');
    ParseClassSound(last.0);
    realm := fields.0;
    rest := if last.1.Some? then [':'] + last.1.value else [];
  }

  lemma ParseClassSound(s: string)
    requires ParseClass(s).Some?
    ensures AsStr(ParseClass(s).value) == s
  {
  }
}
