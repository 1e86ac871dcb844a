/** Versions of handlers, of which only the major and the minor number are compared. */
module Versions {
  import opened Text
  import opened Wrappers

  /** A decimal number with an optional sign, as strconv.Atoi reads it, the 64-bit range left out. */
  function Digits(s: string, acc: nat): Option<nat> {
    if s == [] then Some(acc)
    else if '0' <= s[0] <= '9' then Digits(s[1..], acc * 10 + (s[0] - '0') as nat)
    else None
  }

  function Atoi(s: string): Option<int> {
    if s == "" || s == "-" || s == "+" then None
    else if s[0] == '-' then (match Digits(s[1..], 0) case Some(n) => Some(-(n as int)) case None => None)
    else if s[0] == '+' then (match Digits(s[1..], 0) case Some(n) => Some(n as int) case None => None)
    else match Digits(s, 0) case Some(n) => Some(n as int) case None => None
  }

  function MajorMinor(v: string): Option<(int, int)> {
    var parts := Split(v, '.');
    if |parts| < 2 then None
    else match (Atoi(parts[0]), Atoi(parts[1]))
         case (Some(a), Some(b)) => Some((a, b))
         case _ => None
  }

  predicate VersionDiff(a: string, b: string) {
    MajorMinor(a).Some? && MajorMinor(b).Some? && MajorMinor(a) != MajorMinor(b)
  }

  // ---------------------------------------------------------------- numbers as they are written

  function Digit(n: nat): char
    requires n < 10
  {
    ['0', '1', '2', '3', '4', '5', '6', '7', '8', '9'][n]
  }

  function Decimal(n: nat): (s: string)
    ensures s != ""
  {
    (if n < 10 then "" else Decimal(n / 10)) + [Digit(n % 10)]
  }

  lemma {:induction false} DigitsMore(s: string, c: char, acc: nat)
    ensures Digits(s + [c], acc) ==
            match Digits(s, acc)
            case None => None
            case Some(n) => if '0' <= c <= '9' then Some(n * 10 + (c - '0') as nat) else None
  {
    if s == [] {
      assert s + [c] == [c];
    } else {
      assert (s + [c])[1..] == s[1..] + [c];
      if '0' <= s[0] <= '9' {
        DigitsMore(s[1..], c, acc * 10 + (s[0] - '0') as nat);
      }
    }
  }

  lemma {:induction false} DecimalReads(n: nat)
    ensures Digits(Decimal(n), 0) == Some(n)
    ensures forall c <- Decimal(n) :: '0' <= c <= '9'
  {
    if n >= 10 {
      DecimalReads(n / 10);
    }
    var front := if n < 10 then "" else Decimal(n / 10);
    DigitsMore(front, Digit(n % 10), 0);
  }

  /** Reading back a number that was written in decimal, with or without a sign. */
  lemma AtoiReads(n: nat)
    ensures Atoi(Decimal(n)) == Some(n) && Atoi("+" + Decimal(n)) == Some(n) && Atoi("-" + Decimal(n)) == Some(-(n as int))
  {
    DecimalReads(n);
    assert Decimal(n)[0] in Decimal(n);
    assert ("+" + Decimal(n))[1..] == Decimal(n) && ("-" + Decimal(n))[1..] == Decimal(n);
  }

  lemma FirstTwo(a: string, b: string, rest: string)
    requires '.' !in a && '.' !in b && (rest == "" || rest[0] == '.')
    ensures var parts := Split(a + "." + b + rest, '.'); |parts| >= 2 && parts[0] == a && parts[1] == b
  {
    hide Split;
    assert a + "." + b + rest == a + ['.'] + (b + rest);
    SplitAt(a, b + rest, '.');
    if rest == "" {
      assert b + rest == b;
      SplitCount(b, '.');
    } else {
      assert b + rest == b + ['.'] + rest[1..];
      SplitAt(b, rest[1..], '.');
    }
  }

  lemma Parts(major: nat, minor: nat, rest: string)
    requires rest == "" || rest[0] == '.'
    ensures MajorMinor(Decimal(major) + "." + Decimal(minor) + rest) == Some((major, minor))
  {
    hide Decimal, Digits, Atoi, Split;
    DecimalReads(major);
    DecimalReads(minor);
    AtoiReads(major);
    AtoiReads(minor);
    FirstTwo(Decimal(major), Decimal(minor), rest);
  }

  /** Two versions of the usual form differ exactly when their major or their minor numbers do, whatever comes behind. */
  lemma DifferExactly(major: nat, minor: nat, rest: string, major': nat, minor': nat, rest': string)
    requires (rest == "" || rest[0] == '.') && (rest' == "" || rest'[0] == '.')
    ensures VersionDiff(Decimal(major) + "." + Decimal(minor) + rest, Decimal(major') + "." + Decimal(minor') + rest')
            <==> major != major' || minor != minor'
  {
    Parts(major, minor, rest);
    Parts(major', minor', rest');
  }

  /** A version without a dot, or with something else than a number before or behind the first one, differs from none. */
  lemma UnreadableNeverDiffers(a: string, b: string)
    requires |Split(a, '.')| < 2 || Atoi(Split(a, '.')[0]).None? || Atoi(Split(a, '.')[1]).None?
    ensures !VersionDiff(a, b) && !VersionDiff(b, a)
  {
  }
}
