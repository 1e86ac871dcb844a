/**
 A site that meets everything the theorems on cached calls ask for, and on it the two runs in
 which a caller is told what its handler did not return.
 */
module CacheExample {
  import opened Wrappers
  import opened CallAdmission
  import opened CallJob
  import opened CacheVersions
  import opened Text
  import opened Versions
  import JobId

  /** A hash of 64 characters that tells `a` from every other string. */
  function Digest(a: string): string -> string {
    x => seq(64, i => if x == a then '0' else '1')
  }

  /**
   Inputs, outputs and errors are strings and are stored as they are.  Handler "r" fails and asks
   to be requeued; every other one returns its own version.
   */
  function Example(a: string, b: string): Site<string, string, string> {
    Site((handler, version, x) => if handler == "r" then Run(version, Some("failed"), Requeued) else Run(version, None, NoAbort),
         handler => Mode.Cache, handler => 0,
         x => x, x => Some(x), u => u, u => Some(u), e => e, e => Some(e),
         Digest(a), {"h", "r"}, {a, b})
  }

  /** For any two strings there is a site that is sound and may hash both. */
  lemma SoundIsMet(a: string, b: string)
    requires a != b
    ensures Sound(Example(a, b)) && Apart(Example(a, b))
    ensures a in Example(a, b).hashed && b in Example(a, b).hashed
  {
    var hash := Digest(a);
    assert hash(a)[0] == '0' && hash(b)[0] == '1';
    forall x ensures |hash(x)| == 64 && JobId.SEP !in hash(x) {}
    forall h, h', x | h in {"h", "r"} && h' in {"h", "r"} ensures !JobId.Swallows(hash, h', h, x) {
      assert |h'| == 1;
    }
  }

  lemma TwoVersions()
    ensures VersionDiff("1.0", "2.0")
  {
    SplitAt("1", "0", '.');
    SplitAt("2", "0", '.');
    SplitCount("0", '.');
    assert "1" + ['.'] + "0" == "1.0" && "2" + ['.'] + "0" == "2.0";
    assert Split("1.0", '.') == ["1", "0"] && Split("2.0", '.') == ["2", "0"];
    assert Atoi("1") == Some(1) && Atoi("2") == Some(2) && Atoi("0") == Some(0);
  }

  /** While "h" is being upgraded from 1.0 to 2.0, a caller at 1.0 is given what 2.0 returned. */
  lemma AnUpgrade() returns (ws: seq<World<string, string, string>>, steps: seq<Step<string>>)
    ensures var d := Example("hx", "rx");
            && Sound(d) && IsRun(d, ws, steps) && ws != [] && 2 in Last(ws).calls
            && var c := Last(ws).calls[2];
               && c.handler == "h" && c.version == "1.0" && c.pc == Returned(Success("2.0"))
               && d.run("h", "1.0", c.input).output == "1.0"
  {
    var d := Example("hx", "rx");
    SoundIsMet("hx", "rx");
    TwoVersions();
    assert "h" + "x" == "hx";
    hide Sound, IsRun, VersionDiff;
    ws, steps := UpgradeMixesVersions(d, "h", "x", "1.0", "2.0");
  }

  /** A caller of "r", which fails, is told of success. */
  lemma AHiddenError() returns (ws: seq<World<string, string, string>>, steps: seq<Step<string>>)
    ensures var d := Example("hx", "rx");
            && Sound(d) && IsRun(d, ws, steps) && ws != [] && 0 in Last(ws).calls
            && Last(ws).calls[0].pc == Returned(Success("1.0")) && d.run("r", "1.0", "x").err == Some("failed")
  {
    var d := Example("hx", "rx");
    SoundIsMet("hx", "rx");
    assert "r" + "x" == "rx";
    hide Sound, IsRun;
    ws, steps := RequeueHidesError(d, "r", "x", "1.0");
  }
}
