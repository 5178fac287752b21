/** JSON Pointer text (RFC 6901, sections 3 and 4) as the change planner writes and reads it. */
module Pointers {
  import opened Options

  type Path = seq<string>

  /** `replaceAll` of one character. */
  function ReplaceChar(s: string, c: char, with: string): string {
    if s == "" then "" else (if s[0] == c then with else [s[0]]) + ReplaceChar(s[1..], c, with)
  }

  /** `replaceAll` of a two-character pattern, scanning from the left. */
  function ReplacePair(s: string, a: char, b: char, with: string): string {
    if |s| < 2 then s
    else if s[0] == a && s[1] == b then with + ReplacePair(s[2..], a, b, with)
    else [s[0]] + ReplacePair(s[1..], a, b, with)
  }

  function Encode(part: string): string {
    ReplaceChar(ReplaceChar(part, '~', "~0"), '/', "~1")
  }

  function Decode(encoded: string): string {
    ReplacePair(ReplacePair(encoded, '~', '1', "/"), '~', '0', "~")
  }

  /** The parts, each behind a slash. */
  function Slashed(path: Path): string {
    if path == [] then "" else "/" + Encode(path[0]) + Slashed(path[1..])
  }

  /** `pointer`: the encoded parts joined by slashes behind a slash, and a lone slash for no parts. */
  function Pointer(path: Path): string {
    if path == [] then "/" else Slashed(path)
  }

  /** The text up to the first slash. */
  function FirstSegment(s: string): string {
    if s == "" || s[0] == '/' then "" else [s[0]] + FirstSegment(s[1..])
  }


  /** `pointerKey`: the key an address names inside a collection. */
  function PointerKey(address: string, collection: string): Option<string> {
    var prefix := "/" + collection + "/";
    if prefix <= address then Some(Decode(FirstSegment(address[|prefix|..]))) else None
  }

  // ---- one part ----

  function EncodeChar(c: char): string {
    if c == '~' then "~0" else if c == '/' then "~1" else [c]
  }

  lemma ReplaceCharConcat(s: string, t: string, c: char, with: string)
    ensures ReplaceChar(s + t, c, with) == ReplaceChar(s, c, with) + ReplaceChar(t, c, with)
  {
    if s == "" {
      assert s + t == t;
    } else {
      assert (s + t)[1..] == s[1..] + t;
      ReplaceCharConcat(s[1..], t, c, with);
    }
  }

  lemma EncodeHead(part: string)
    requires part != ""
    ensures Encode(part) == EncodeChar(part[0]) + Encode(part[1..])
  {
    var head := if part[0] == '~' then "~0" else [part[0]];
    ReplaceCharConcat(head, ReplaceChar(part[1..], '~', "~0"), '/', "~1");
    assert ReplaceChar(head, '/', "~1") == EncodeChar(part[0]) by {
      if part[0] == '~' {
        assert head[1..] == "0" && "0"[1..] == "";
      } else {
        assert head[1..] == "";
      }
    }
  }

  lemma {:induction false} EncodeHasNoSlash(part: string)
    ensures '/' !in Encode(part)
  {
    if part != "" {
      EncodeHead(part);
      EncodeHasNoSlash(part[1..]);
    }
  }

  /** The encoding with only `~1` undone. */
  function HalfDecoded(part: string): string {
    ReplaceChar(part, '~', "~0")
  }

  lemma {:induction false} DecodeSlashes(part: string)
    ensures ReplacePair(Encode(part), '~', '1', "/") == HalfDecoded(part)
  {
    if part != "" {
      EncodeHead(part);
      DecodeSlashes(part[1..]);
      var e, rest := Encode(part), Encode(part[1..]);
      if part[0] == '/' {
        assert e[2..] == rest;
      } else if part[0] == '~' {
        assert e[1..] == "0" + rest && e[1..][1..] == rest;
        assert ReplacePair(e[1..], '~', '1', "/") == "0" + ReplacePair(rest, '~', '1', "/");
        assert "~" + ("0" + HalfDecoded(part[1..])) == "~0" + HalfDecoded(part[1..]);
      } else {
        assert e[1..] == rest;
      }
    }
  }

  lemma {:induction false} DecodeTildes(part: string)
    ensures ReplacePair(HalfDecoded(part), '~', '0', "~") == part
  {
    if part != "" {
      DecodeTildes(part[1..]);
      var e, rest := HalfDecoded(part), HalfDecoded(part[1..]);
      if part[0] == '~' {
        assert e[2..] == rest;
      } else {
        assert e[1..] == rest;
      }
      assert part == [part[0]] + part[1..];
    }
  }

  /** Decoding undoes encoding for every part. */
  lemma DecodeEncode(part: string)
    ensures Decode(Encode(part)) == part
  {
    DecodeSlashes(part);
    DecodeTildes(part);
  }

  lemma EncodeCharPrefix(c: char, s: string, d: char, t: string)
    ensures EncodeChar(c) + s <= EncodeChar(d) + t <==> c == d && s <= t
  {
    var x, y := EncodeChar(c), EncodeChar(d);
    if c == d {
      PrefixAfter(x, s, t);
    } else {
      assert exists i | 0 <= i < |x| && i < |y| :: x[i] != y[i] by {
        if x[0] == y[0] { assert x[1] != y[1]; }
      }
      var i :| 0 <= i < |x| && i < |y| && x[i] != y[i];
      DifferentIndex(x + s, y + t, i);
    }
  }

  lemma DifferentIndex(a: string, b: string, i: nat)
    requires i < |a| && i < |b| && a[i] != b[i]
    ensures !(a <= b)
  {}

  /** One encoded part is a prefix of another exactly when the parts are. */
  lemma {:induction false} EncodePrefix(a: string, b: string, rest: string)
    requires rest == "" || rest[0] == '/'
    ensures Encode(a) <= Encode(b) + rest <==> a <= b
    decreases |a|
  {
    if a != "" {
      EncodeHead(a);
      if b == "" {
        assert Encode(b) + rest == rest;
        assert Encode(a)[0] == EncodeChar(a[0])[0] != '/';
      } else {
        EncodeHead(b);
        EncodePrefix(a[1..], b[1..], rest);
        Assoc(EncodeChar(b[0]), Encode(b[1..]), rest);
        EncodeCharPrefix(a[0], Encode(a[1..]), b[0], Encode(b[1..]) + rest);
        PrefixHead(a, b);
      }
    }
  }

  lemma PrefixHead(a: string, b: string)
    requires a != "" && b != ""
    ensures a <= b <==> a[0] == b[0] && a[1..] <= b[1..]
  {
    if a[0] == b[0] && a[1..] <= b[1..] {
      assert forall i | 1 <= i < |a| :: a[i] == a[1..][i - 1] == b[1..][i - 1] == b[i];
    }
  }

  lemma PrefixAfter(x: string, s: string, t: string)
    ensures (x + s <= x + t) == (s <= t)
  {
    if x + s <= x + t {
      assert forall i | 0 <= i < |s| :: s[i] == (x + s)[|x| + i] == (x + t)[|x| + i] == t[i];
    }
  }

  // ---- whole pointers ----

  lemma SlashedHead(path: Path)
    ensures Slashed(path) == "" || Slashed(path)[0] == '/'
  {}

  /** Text without a slash, followed by nothing or a slash, can be told from what follows. */
  lemma SegmentCancels(a: string, s: string, b: string, t: string)
    requires '/' !in a && '/' !in b && a + s == b + t
    requires (s == "" || s[0] == '/') && (t == "" || t[0] == '/')
    ensures a == b && s == t
  {
    FirstSegmentOf(a, s);
    FirstSegmentOf(b, t);
    assert s == (a + s)[|a|..] && t == (b + t)[|b|..];
  }

  lemma SlashedTail(p: Path)
    requires p != []
    ensures Slashed(p) == "/" + (Encode(p[0]) + Slashed(p[1..]))
    ensures Slashed(p)[1..] == Encode(p[0]) + Slashed(p[1..])
  {
    Assoc("/", Encode(p[0]), Slashed(p[1..]));
  }

  lemma Assoc(a: string, b: string, c: string)
    ensures a + b + c == a + (b + c)
  {}

  lemma {:induction false} SlashedInjective(p: Path, q: Path)
    requires Slashed(p) == Slashed(q)
    ensures p == q
    decreases |p|
  {
    if p != [] && q != [] {
      SlashedTail(p);
      SlashedTail(q);
      EncodeHasNoSlash(p[0]);
      EncodeHasNoSlash(q[0]);
      SlashedHead(p[1..]);
      SlashedHead(q[1..]);
      SegmentCancels(Encode(p[0]), Slashed(p[1..]), Encode(q[0]), Slashed(q[1..]));
      DecodeEncode(p[0]);
      DecodeEncode(q[0]);
      SlashedInjective(p[1..], q[1..]);
      assert p == [p[0]] + p[1..] && q == [q[0]] + q[1..];
    }
  }

  /** Two paths share a pointer exactly when they are equal, or are the root and the path to the
      member with the empty name. */
  lemma PointerCollisions(p: Path, q: Path)
    ensures Pointer(p) == Pointer(q) <==> p == q || {p, q} == {[], [""]}
  {
    assert Slashed([""]) == "/" + "" + "";
    if p != [] && q != [] && Pointer(p) == Pointer(q) {
      SlashedInjective(p, q);
    } else if p == [] && q != [] && Pointer(p) == Pointer(q) {
      SlashedInjective([""], q);
    } else if q == [] && p != [] && Pointer(p) == Pointer(q) {
      SlashedInjective([""], p);
    }
  }

  /** Below a nonempty path pointers do not collide. */
  lemma PointerBelow(base: Path, p: Path, q: Path)
    requires base != [] && Pointer(base + p) == Pointer(base + q)
    ensures p == q
  {
    SlashedInjective(base + p, base + q);
    assert p == (base + p)[|base|..] == (base + q)[|base|..] == q;
  }

  lemma {:induction false} SlashedConcat(p: Path, q: Path)
    ensures Slashed(p + q) == Slashed(p) + Slashed(q)
  {
    if p == [] {
      assert p + q == q;
    } else {
      assert (p + q)[1..] == p[1..] + q;
      SlashedConcat(p[1..], q);
      assert "/" + Encode(p[0]) + (Slashed(p[1..]) + Slashed(q))
          == "/" + Encode(p[0]) + Slashed(p[1..]) + Slashed(q);
    }
  }

  /** A pointer that starts like the pointer of a sibling field: its own field's name starts with
      the sibling's name. This is not yet being that field. */
  lemma StartsWithField(base: Path, field: string, own: string, below: Path)
    ensures Pointer(base + [field]) <= Pointer(base + [own] + below) <==> field <= own
  {
    assert base + [own] + below == base + ([own] + below);
    SlashedConcat(base, [field]);
    SlashedConcat(base, [own] + below);
    SlashedTail([field]);
    SlashedTail([own] + below);
    assert ([own] + below)[1..] == below && [field][1..] == [];
    SlashedHead(below);
    EncodePrefix(field, own, Slashed(below));
    var b, rest := Slashed(base), Encode(own) + Slashed(below);
    assert Encode(field) + Slashed([]) == Encode(field);
    Assoc(b, "/", Encode(field));
    Assoc(b, "/", rest);
    PrefixAfter(b + "/", Encode(field), rest);
  }

  /** The reader recovers the key the writer put into the address, for every key. */
  lemma PointerKeyRoundTrip(collection: string, key: string, below: Path)
    requires Encode(collection) == collection
    ensures PointerKey(Pointer([collection, key] + below), collection) == Some(key)
  {
    var path := [collection, key] + below;
    assert path[1..] == [key] + below && path[1..][1..] == below;
    SlashedTail(path);
    SlashedTail(path[1..]);
    var rest := Encode(key) + Slashed(below);
    var prefix := "/" + collection + "/";
    assert Pointer(path) == "/" + (collection + ("/" + rest));
    assert Pointer(path) == prefix + rest;
    assert Pointer(path)[|prefix|..] == rest;
    SlashedHead(below);
    EncodeHasNoSlash(key);
    FirstSegmentOf(Encode(key), Slashed(below));
    DecodeEncode(key);
  }

  lemma {:induction false} FirstSegmentOf(a: string, s: string)
    requires '/' !in a && (s == "" || s[0] == '/')
    ensures FirstSegment(a + s) == a
  {
    if a == "" {
      assert a + s == s;
    } else {
      assert (a + s)[1..] == a[1..] + s;
      FirstSegmentOf(a[1..], s);
      assert a == [a[0]] + a[1..];
    }
  }
}
