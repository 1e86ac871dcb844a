/** Job ids: "job:v1:<handler>:<id>", with ".<marker>" behind it when there is a marker. */
module JobId {
  import opened Text
  import opened Wrappers

  const SEP := ':'

  function Tail(id: string, marker: string): string {
    if marker == "" then id else id + "." + marker
  }

  function Encode(handler: string, id: string, marker: string): string {
    "job" + [SEP] + ("v1" + [SEP] + (handler + [SEP] + Tail(id, marker)))
  }

  datatype Decoded = Decoded(version: string, handler: string, id: string)

  function Decode(s: string): Option<Decoded> {
    var parts := Split(s, SEP);
    if |parts| != 4 || parts[0] != "job" || !("v1" <= parts[1]) then None
    else Some(Decoded(parts[1], parts[2], parts[3]))
  }

  /**
   An id comes back from `Decode` exactly when neither the handler's name nor the rest holds
   a separator; otherwise it is refused, never misread.
   */
  lemma RoundTrip(handler: string, id: string, marker: string)
    ensures var r := Decode(Encode(handler, id, marker));
            if SEP !in handler && SEP !in Tail(id, marker) then r == Some(Decoded("v1", handler, Tail(id, marker)))
            else r == None
  {
    var tail := Tail(id, marker);
    var rest := handler + [SEP] + tail;
    SplitAt("job", "v1" + [SEP] + rest, SEP);
    SplitAt("v1", rest, SEP);
    SplitAt(handler, tail, SEP);
    SplitCount(rest, SEP);
    SplitCount(handler, SEP);
    SplitCount(tail, SEP);
    assert SEP !in "job" && SEP !in "v1";
    assert Split(Encode(handler, id, marker), SEP) == ["job"] + (["v1"] + Split(rest, SEP));
  }

  /** What `Decode` accepts is exactly what has the form of an id: four parts, the first two of them as they should be. */
  lemma DecodeExactly(s: string, version: string, handler: string, id: string)
    ensures Decode(s) == Some(Decoded(version, handler, id)) <==>
            && s == "job:" + version + ":" + handler + ":" + id
            && SEP !in version && SEP !in handler && SEP !in id && "v1" <= version
  {
    var pieces := ["job", version, handler, id];
    var parts := Split(s, SEP);
    JoinFour("job", version, handler, id);
    assert "job:" == "job" + ":" && "job" + ":" + version + ":" + handler + ":" + id == Join(pieces, SEP);
    hide Split, Join;
    if parts == pieces {
      NoSeparator(s, SEP);
      SplitJoin(s, SEP);
      assert parts[1] in parts && parts[2] in parts && parts[3] in parts;
    } else if Decode(s) == Some(Decoded(version, handler, id)) {
      FourPieces(parts, version, handler, id);
    }
    if s == Join(pieces, SEP) && SEP !in version && SEP !in handler && SEP !in id {
      assert SEP !in "job";
      JoinSplit(pieces, SEP);
    }
  }

  lemma FourPieces(parts: seq<string>, version: string, handler: string, id: string)
    requires |parts| == 4 && parts[0] == "job" && parts[1] == version && parts[2] == handler && parts[3] == id
    ensures parts == ["job", version, handler, id]
  {
  }

  lemma JoinFour(a: string, b: string, c: string, e: string)
    ensures Join([a, b, c, e], SEP) == a + ":" + b + ":" + c + ":" + e
  {
    JoinOne(e, SEP);
    JoinMore(c, [e], SEP);
    JoinMore(b, [c, e], SEP);
    JoinMore(a, [b, c, e], SEP);
    assert [c] + [e] == [c, e] && [b] + [c, e] == [b, c, e] && [a] + [b, c, e] == [a, b, c, e];
  }

  // ---------------------------------------------------------------- ids that stand for an input

  /** The shape of SHA-256 in hexadecimal. */
  ghost predicate IsDigest(hash: string -> string) {
    forall x :: |hash(x)| == 64 && SEP !in hash(x)
  }

  /** No two of these strings have the same hash. */
  ghost predicate NoCollision(hash: string -> string, hashed: set<string>) {
    forall x, y :: x in hashed && y in hashed && hash(x) == hash(y) ==> x == y
  }

  function Of(hash: string -> string, handler: string, input: string, marker: string): string {
    Encode(handler, hash(handler + input), marker)
  }

  lemma LastSeparator(a: string, b: string, c: string, d: string)
    requires a + [SEP] + b == c + [SEP] + d && SEP !in b && SEP !in d
    ensures a == c && b == d
  {
    var s := a + [SEP] + b;
    assert s[|a|] == SEP && s[|c|] == SEP;
    assert forall i :: |a| < i < |s| ==> s[i] == b[i - |a| - 1];
    assert forall i :: |c| < i < |s| ==> s[i] == d[i - |c| - 1];
    assert |a| == |c|;
    assert a == s[..|a|] && c == s[..|c|] && b == s[|a| + 1..] && d == s[|c| + 1..];
  }

  /**
   The name `h'` goes on behind `h` with the hash of `h` and `x` and a dot, so that a request id
   can make up the rest.
   */
  predicate Swallows(hash: string -> string, h': string, h: string, x: string) {
    h + [SEP] + hash(h + x) + "." <= h'
  }

  lemma Unfold(hash: string -> string, h: string, x: string, m: string)
    ensures Of(hash, h, x, m) == ("job" + [SEP] + "v1" + [SEP]) + (h + [SEP] + Tail(hash(h + x), m))
  {
    assert Of(hash, h, x, m) == ("job" + [SEP] + "v1" + [SEP]) + (h + [SEP] + Tail(hash(h + x), m));
  }

  lemma SameTail(front: string, a: string, b: string)
    requires front + a == front + b
    ensures a == b
  {
    assert a == (front + a)[|front|..] && b == (front + b)[|front|..];
  }

  /** Two names of different length with one id: the longer one swallows the id of the shorter one. */
  lemma SameIdSwallows(hash: string -> string, h: string, x: string, m: string, h': string, x': string, m': string)
    requires IsDigest(hash) && |h| < |h'| && Of(hash, h, x, m) == Of(hash, h', x', m')
    ensures Swallows(hash, h', h, x)
  {
    var id, id' := hash(h + x), hash(h' + x');
    var s := h + [SEP] + Tail(id, m);
    Unfold(hash, h, x, m);
    Unfold(hash, h', x', m');
    SameTail("job" + [SEP] + "v1" + [SEP], s, h' + [SEP] + Tail(id', m'));
    assert s[|h'|] == SEP && h' == s[..|h'|];
    forall i | |h| < i < |h| + 65 ensures s[i] != SEP {
      assert s[i] == id[i - |h| - 1];
    }
    assert m != "" && s[|h| + 65] == '.';
    assert s[..|h| + 66] == h + [SEP] + id + ".";
    assert h'[..|h| + 66] == s[..|h| + 66];
  }

  /**
   Jobs of two handlers can get one id, by some request ids, if and only if the longer name
   swallows the id of the shorter one.
   */
  lemma CollisionCondition(hash: string -> string, h: string, x: string, h': string, x': string)
    requires IsDigest(hash) && |h| < |h'|
    ensures (exists m, m' :: Of(hash, h, x, m) == Of(hash, h', x', m')) <==> Swallows(hash, h', h, x)
  {
    hide Of, Swallows;
    if m, m' :| Of(hash, h, x, m) == Of(hash, h', x', m') {
      SameIdSwallows(hash, h, x, m, h', x', m');
    }
    if Swallows(hash, h', h, x) {
      var m := NamesCollide(hash, h, x, h', x');
    }
  }

  /** The request id that makes two ids collide. */
  lemma NamesCollide(hash: string -> string, h: string, x: string, h': string, x': string) returns (m: string)
    requires Swallows(hash, h', h, x)
    ensures Of(hash, h, x, m) == Of(hash, h', x', "")
  {
    hide Of;
    var front, id' := h + [SEP] + hash(h + x) + ".", hash(h' + x');
    var more := h'[|front|..];
    m := more + [SEP] + id';
    Unfold(hash, h, x, m);
    Unfold(hash, h', x', "");
    assert h' == front + more;
    assert h + [SEP] + Tail(hash(h + x), m) == front + more + [SEP] + id';
  }

  /** Within one name, or among names of one length, ids are equal only where everything is, up to the hash. */
  lemma SameName(hash: string -> string, h: string, x: string, m: string, h': string, x': string, m': string)
    requires IsDigest(hash) && |h| == |h'|
    ensures Of(hash, h, x, m) == Of(hash, h', x', m') <==> h == h' && hash(h + x) == hash(h' + x') && m == m'
  {
    if Of(hash, h, x, m) == Of(hash, h', x', m') {
      var t, t' := Tail(hash(h + x), m), Tail(hash(h' + x'), m');
      Unfold(hash, h, x, m);
      Unfold(hash, h', x', m');
      SameTail("job" + [SEP] + "v1" + [SEP], h + [SEP] + t, h' + [SEP] + t');
      assert h == (h + [SEP] + t)[..|h|] && h' == (h' + [SEP] + t')[..|h'|];
      SameTail(h + [SEP], t, t');
      assert hash(h + x) == t[..64] && hash(h' + x') == t'[..64];
      assert m == "" <==> |t| == 64;
      assert m' == "" <==> |t'| == 64;
      if m != "" {
        assert m == t[65..] && m' == t'[65..];
      }
    }
  }

  /**
   Jobs with one id have one handler, one marker and one hash, whatever characters inputs hold,
   unless one name swallows the id of the other; and one input, unless the hash collides on the
   two.  With markers that hold no separator nothing is asked of the names.  A marker is a request
   id, and the request id of a worker is the id of its job, which does hold separators.
   */
  lemma Injective(hash: string -> string, h: string, x: string, m: string, h': string, x': string, m': string)
    requires IsDigest(hash) && Of(hash, h, x, m) == Of(hash, h', x', m')
    requires (SEP !in m && SEP !in m') || (!Swallows(hash, h', h, x) && !Swallows(hash, h, h', x'))
    ensures h == h' && m == m' && hash(h + x) == hash(h' + x')
    ensures NoCollision(hash, {h + x, h' + x'}) ==> x == x'
  {
    if |h| < |h'| {
      SameIdSwallows(hash, h, x, m, h', x', m');
    } else if |h'| < |h| {
      SameIdSwallows(hash, h', x', m', h, x, m);
    }
    if SEP !in m && SEP !in m' {
      var t, t' := Tail(hash(h + x), m), Tail(hash(h' + x'), m');
      Unfold(hash, h, x, m);
      Unfold(hash, h', x', m');
      SameTail("job" + [SEP] + "v1" + [SEP], h + [SEP] + t, h' + [SEP] + t');
      LastSeparator(h, t, h', t');
    }
    SameName(hash, h, x, m, h', x', m');
    if h + x == h' + x' {
      SameTail(h, x, x');
    }
  }
}
