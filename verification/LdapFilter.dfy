/** Escaping a user name into an LDAP search filter, as section 3 of RFC 4515 asks for. */
module LdapFilter {
  import opened Prelude

  type Byte = n: nat | n < 256

  const STAR: Byte := 42
  const OPEN: Byte := 40
  const CLOSE: Byte := 41
  const BACKSLASH: Byte := 92
  const NUL: Byte := 0

  function HexDigit(d: nat): Byte
    requires d < 16
  {
    if d < 10 then 48 + d else 87 + d
  }

  function HexValue(c: Byte): Option<nat> {
    if 48 <= c <= 57 then Some(c - 48)
    else if 97 <= c <= 102 then Some(c - 87)
    else if 65 <= c <= 70 then Some(c - 55)
    else None
  }

  /** The five reserved bytes and every byte outside ASCII are written as a backslash and two hex digits. */
  function EscapeByte(b: Byte): seq<Byte> {
    if b == STAR then [BACKSLASH, 50, 97]
    else if b == OPEN then [BACKSLASH, 50, 56]
    else if b == CLOSE then [BACKSLASH, 50, 57]
    else if b == BACKSLASH then [BACKSLASH, 53, 99]
    else if b == NUL then [BACKSLASH, 48, 48]
    else if b < 128 then [b]
    else [BACKSLASH, HexDigit(b / 16), HexDigit(b % 16)]
  }

  function Escape(input: seq<Byte>): seq<Byte> {
    if input == [] then [] else EscapeByte(input[0]) + Escape(input[1..])
  }

  method EscapeFilter(input: seq<Byte>) returns (out: seq<Byte>)
    ensures out == Escape(input)
  {
    out := [];
    for i := 0 to |input|
      invariant out + Escape(input[i..]) == Escape(input)
    {
      assert input[i..][0] == input[i] && input[i..][1..] == input[i + 1..];
      out := out + EscapeByte(input[i]);
    }
    assert input[|input|..] == [];
  }

  /** The reading of an assertion value: a backslash must be followed by two hex digits. */
  function Unescape(s: seq<Byte>): Option<seq<Byte>>
    decreases |s|
  {
    if s == [] then Some([])
    else if s[0] != BACKSLASH then
      match Unescape(s[1..])
      case Some(rest) => Some([s[0]] + rest)
      case None => None
    else if |s| < 3 then None
    else
      match (HexValue(s[1]), HexValue(s[2]), Unescape(s[3..]))
      case (Some(hi), Some(lo), Some(rest)) => Some([hi * 16 + lo] + rest)
      case _ => None
  }

  /** An escaped byte is itself, or a backslash and the two hex digits of its value. */
  lemma EscapeForm(b: Byte)
    ensures var e := EscapeByte(b);
            || (e == [b] && b != BACKSLASH)
            || (|e| == 3 && e[0] == BACKSLASH && HexValue(e[1]) == Some(b / 16) && HexValue(e[2]) == Some(b % 16))
  {
  }

  lemma ReadsBack(b: Byte, rest: seq<Byte>, read: seq<Byte>)
    requires Unescape(rest) == Some(read)
    ensures Unescape(EscapeByte(b) + rest) == Some([b] + read)
  {
    EscapeForm(b);
    hide EscapeByte, HexValue;
    var s := EscapeByte(b) + rest;
    if |EscapeByte(b)| == 1 {
      assert s[1..] == rest;
    } else {
      assert s[3..] == rest;
    }
  }

  /** Escaping loses nothing: reading the escaped value gives back the original bytes. */
  lemma {:induction false} UnescapeEscape(input: seq<Byte>)
    ensures Unescape(Escape(input)) == Some(input)
  {
    hide EscapeByte, Unescape;
    if input == [] {
      EmptyReadsEmpty();
    } else {
      UnescapeEscape(input[1..]);
      ReadsBack(input[0], Escape(input[1..]), input[1..]);
      assert input == [input[0]] + input[1..];
    }
  }

  lemma EmptyReadsEmpty()
    ensures Unescape([]) == Some([])
  {
  }

  /** A byte that means something to the filter grammar. */
  predicate Structural(b: Byte) {
    b == STAR || b == OPEN || b == CLOSE || b == NUL
  }

  lemma {:induction false} EscapedIsInert(input: seq<Byte>)
    ensures forall i :: 0 <= i < |Escape(input)| ==> !Structural(Escape(input)[i]) && Escape(input)[i] < 128
  {
    if input == [] {
    } else {
      EscapedIsInert(input[1..]);
    }
  }

  /** ASCII text without reserved bytes is left as it is. */
  lemma {:induction false} PlainTextUnchanged(input: seq<Byte>)
    requires forall i :: 0 <= i < |input| ==> input[i] < 128 && !Structural(input[i]) && input[i] != BACKSLASH
    ensures Escape(input) == input
  {
    if input == [] {
    } else {
      PlainTextUnchanged(input[1..]);
      assert input == [input[0]] + input[1..];
    }
  }

  // ---- Rendering the configured filter ----

  /** The placeholder `{username}`. */
  function Placeholder(): (p: seq<Byte>)
    ensures |p| == 10
  {
    [123, 117, 115, 101, 114, 110, 97, 109, 101, 125]
  }

  /** Every occurrence of the placeholder, left to right, gives way to `value`. */
  function Replace(template: seq<Byte>, value: seq<Byte>): seq<Byte>
    decreases |template|
  {
    if template == [] then []
    else if Placeholder() <= template then value + Replace(template[|Placeholder()|..], value)
    else [template[0]] + Replace(template[1..], value)
  }

  function RenderUserFilter(template: seq<Byte>, username: seq<Byte>): seq<Byte> {
    Replace(template, Escape(username))
  }

  /** The bytes of an ASCII text. */
  function Bytes(s: string): seq<Byte>
    requires forall i :: 0 <= i < |s| ==> s[i] < 128 as char
  {
    seq(|s|, i requires 0 <= i < |s| => s[i] as int)
  }

  predicate OccursAt(s: seq<Byte>, i: nat) {
    i <= |s| && Bytes("{username}") <= s[i..]
  }

  lemma PlaceholderIs()
    ensures Placeholder() == Bytes("{username}")
  {
  }

  /** A template without the placeholder is rendered as it stands. */
  lemma {:induction false} NothingToReplace(template: seq<Byte>, username: seq<Byte>)
    requires forall i: nat :: !OccursAt(template, i)
    ensures RenderUserFilter(template, username) == template
    decreases |template|
  {
    PlaceholderIs();
    hide Placeholder, Bytes, Escape;
    if template == [] {
    } else {
      assert template[0..] == template && !OccursAt(template, 0);
      forall i: nat | i <= |template[1..]|
        ensures !OccursAt(template[1..], i)
      {
        assert template[1..][i..] == template[i + 1..] && !OccursAt(template, i + 1);
      }
      NothingToReplace(template[1..], username);
    }
  }

  /**
   The first placeholder gives way to the escaped user name, what stands before it stays, and what comes
   after it is rendered in the same way.
   */
  lemma {:induction false} FirstPlaceholderReplaced(head: seq<Byte>, tail: seq<Byte>, username: seq<Byte>)
    requires var t := head + Bytes("{username}") + tail; forall i: nat :: i < |head| ==> !OccursAt(t, i)
    ensures RenderUserFilter(head + Bytes("{username}") + tail, username)
            == head + Escape(username) + RenderUserFilter(tail, username)
    decreases |head|
  {
    PlaceholderIs();
    var mark := Bytes("{username}");
    hide Placeholder, Bytes, Escape;
    var t := head + mark + tail;
    if head == [] {
      assert t == mark + tail;
      assert t[|mark|..] == tail;
    } else {
      assert t[0..] == t && !OccursAt(t, 0);
      assert t[1..] == head[1..] + mark + tail;
      forall i: nat | i < |head[1..]|
        ensures !OccursAt(t[1..], i)
      {
        assert t[1..][i..] == t[i + 1..] && !OccursAt(t, i + 1);
      }
      FirstPlaceholderReplaced(head[1..], tail, username);
      assert head == [head[0]] + head[1..];
    }
  }

  /** What is left of a filter when everything but its grammar is taken out. */
  function Skeleton(s: seq<Byte>): seq<Byte> {
    if s == [] then [] else (if Structural(s[0]) then [s[0]] else []) + Skeleton(s[1..])
  }

  lemma {:induction false} SkeletonConcat(a: seq<Byte>, b: seq<Byte>)
    ensures Skeleton(a + b) == Skeleton(a) + Skeleton(b)
  {
    if a == [] {
      assert a + b == b;
    } else {
      assert (a + b)[1..] == a[1..] + b && (a + b)[0] == a[0];
      SkeletonConcat(a[1..], b);
      var h := if Structural(a[0]) then [a[0]] else [];
      hide Structural;
      assert Skeleton(a + b) == h + (Skeleton(a[1..]) + Skeleton(b));
      assert h + (Skeleton(a[1..]) + Skeleton(b)) == (h + Skeleton(a[1..])) + Skeleton(b);
    }
  }

  lemma {:induction false} InertHasNoSkeleton(s: seq<Byte>)
    requires forall i :: 0 <= i < |s| ==> !Structural(s[i])
    ensures Skeleton(s) == []
  {
    if s == [] {
    } else {
      InertHasNoSkeleton(s[1..]);
    }
  }

  lemma NothingStructural(username: seq<Byte>)
    ensures Skeleton(Escape(username)) == [] && Skeleton(Placeholder()) == []
  {
    EscapedIsInert(username);
    InertHasNoSkeleton(Escape(username));
    InertHasNoSkeleton(Placeholder());
  }

  /**
   Whatever the user name, the rendered filter has the grammar of the configured one: the same
   parentheses and wildcards in the same order, and none from the user name.
   */
  lemma {:induction false} UserNameCannotReshapeFilter(template: seq<Byte>, username: seq<Byte>)
    ensures Skeleton(RenderUserFilter(template, username)) == Skeleton(template)
    decreases |template|
  {
    hide Placeholder, Skeleton, Escape;
    var value := Escape(username);
    if template == [] {
    } else if Placeholder() <= template {
      var rest := template[|Placeholder()|..];
      UserNameCannotReshapeFilter(rest, username);
      NothingStructural(username);
      SkeletonConcat(value, Replace(rest, value));
      SkeletonConcat(Placeholder(), rest);
      assert template == Placeholder() + rest;
    } else {
      UserNameCannotReshapeFilter(template[1..], username);
      SkeletonConcat([template[0]], Replace(template[1..], value));
      SkeletonConcat([template[0]], template[1..]);
      assert template == [template[0]] + template[1..];
    }
  }
}
