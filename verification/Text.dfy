/** Cutting strings at a character, as strings.Split does. */
module Text {

  /** The pieces between the separators, at least one. */
  function Split(s: string, sep: char): (r: seq<string>)
    ensures r != []
  {
    if s == [] then [""]
    else if s[0] == sep then [""] + Split(s[1..], sep)
    else var r := Split(s[1..], sep); [[s[0]] + r[0]] + r[1..]
  }

  function Join(pieces: seq<string>, sep: char): string
    requires pieces != []
  {
    if |pieces| == 1 then pieces[0] else pieces[0] + [sep] + Join(pieces[1..], sep)
  }

  function Count(s: string, sep: char): nat {
    if s == [] then 0 else (if s[0] == sep then 1 else 0) + Count(s[1..], sep)
  }

  /** No piece has a separator in it. */
  lemma {:induction false} NoSeparator(s: string, sep: char)
    ensures forall p <- Split(s, sep) :: sep !in p
  {
    if s != "" {
      NoSeparator(s[1..], sep);
    }
  }

  lemma JoinOne(piece: string, sep: char)
    ensures Join([piece], sep) == piece
  {
  }

  lemma JoinMore(head: string, rest: seq<string>, sep: char)
    requires rest != []
    ensures Join([head] + rest, sep) == head + [sep] + Join(rest, sep)
  {
    assert ([head] + rest)[1..] == rest;
  }

  lemma JoinCons(c: char, head: string, rest: seq<string>, sep: char)
    ensures Join([[c] + head] + rest, sep) == [c] + Join([head] + rest, sep)
  {
    hide Join;
    if rest == [] {
      assert [[c] + head] + rest == [[c] + head] && [head] + rest == [head];
      JoinOne(head, sep);
      JoinOne([c] + head, sep);
    } else {
      JoinMore(head, rest, sep);
      JoinMore([c] + head, rest, sep);
      assert [c] + head + [sep] + Join(rest, sep) == [c] + (head + [sep] + Join(rest, sep));
    }
  }

  /** Splitting loses nothing. */
  lemma {:induction false} SplitJoin(s: string, sep: char)
    ensures Join(Split(s, sep), sep) == s
  {
    hide Join;
    if s == "" {
      JoinOne("", sep);
    } else {
      SplitJoin(s[1..], sep);
      var rest := Split(s[1..], sep);
      assert s == [s[0]] + s[1..] && rest == [rest[0]] + rest[1..];
      JoinMore("", rest, sep);
      JoinCons(s[0], rest[0], rest[1..], sep);
    }
  }

  lemma {:induction false} SplitCount(s: string, sep: char)
    ensures |Split(s, sep)| == 1 + Count(s, sep)
    ensures Count(s, sep) == 0 <==> sep !in s
    ensures sep !in s ==> Split(s, sep) == [s]
  {
    if s != [] {
      SplitCount(s[1..], sep);
      assert s == [s[0]] + s[1..];
    }
  }

  lemma {:induction false} SplitAt(a: string, b: string, sep: char)
    ensures Count(a + [sep] + b, sep) == Count(a, sep) + 1 + Count(b, sep)
    ensures sep !in a ==> Split(a + [sep] + b, sep) == [a] + Split(b, sep)
  {
    if a == [] {
      assert a + [sep] + b == [sep] + b;
    } else {
      SplitAt(a[1..], b, sep);
      assert (a + [sep] + b)[1..] == a[1..] + [sep] + b;
      assert a == [a[0]] + a[1..];
    }
  }

  /** Joining pieces that hold no separator loses nothing either. */
  lemma {:induction false} JoinSplit(pieces: seq<string>, sep: char)
    requires pieces != [] && forall p <- pieces :: sep !in p
    ensures Split(Join(pieces, sep), sep) == pieces
  {
    SplitCount(pieces[0], sep);
    if |pieces| > 1 {
      JoinSplit(pieces[1..], sep);
      SplitAt(pieces[0], Join(pieces[1..], sep), sep);
      assert pieces == [pieces[0]] + pieces[1..];
    }
  }

  lemma {:induction false} JoinEnds(pieces: seq<string>, sep: char)
    requires pieces != [] && forall i :: 0 <= i < |pieces| ==> pieces[i] != ""
    ensures var s := Join(pieces, sep);
            && s != "" && s[0] == pieces[0][0]
            && var last := pieces[|pieces| - 1]; s[|s| - 1] == last[|last| - 1]
  {
    if |pieces| > 1 {
      JoinEnds(pieces[1..], sep);
    }
  }
}
