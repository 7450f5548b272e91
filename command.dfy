/** The command side of src/lib.rs and src/main.rs: the scan that sorts the
    arguments into a tool, a path and a flag (`Config::new`), the choice of
    action by the flag (`run`), the `ls` guard of `main`, and the line that
    short mode prints per entry.
 */
module Command {
  import opened Outcomes

  /** What the scan keeps of the arguments: the last flag, the last path and
      whether `ls` was named. */
  datatype Config = Config(tool: string, path: string, flag: string)

  /** A token with a hyphen anywhere in it is a flag, wherever it stands. */
  predicate IsFlag(arg: string) {
    '-' in arg
  }

  /** A token that is neither a flag nor `ls` is a path. */
  predicate IsPath(arg: string) {
    !IsFlag(arg) && arg != "ls"
  }

  /** One token of the scan: it writes exactly one of the three fields and
      leaves the other two as they were. */
  function Classify(cfg: Config, arg: string): (r: Config)
    ensures r.tool == cfg.tool || r.path == cfg.path || r.flag == cfg.flag
    ensures (r.tool == cfg.tool && r.path == cfg.path)
         || (r.tool == cfg.tool && r.flag == cfg.flag)
         || (r.path == cfg.path && r.flag == cfg.flag)
    ensures r.flag != cfg.flag ==> IsFlag(arg) && r.flag == arg
    ensures r.path != cfg.path ==> IsPath(arg) && r.path == arg
    ensures r.tool != cfg.tool ==> arg == "ls" && r.tool == "ls"
    ensures IsFlag(arg) ==> r.flag == arg
    ensures !IsFlag(arg) && arg == "ls" ==> r.tool == "ls"
    ensures IsPath(arg) ==> r.path == arg
  {
    if IsFlag(arg) then cfg.(flag := arg)
    else if arg == "ls" then cfg.(tool := "ls")
    else cfg.(path := arg)
  }

  /** The configuration after scanning `args` from left to right, starting
      from three empty fields. */
  function Scan(args: seq<string>): (r: Config)
    ensures r.tool == "" || r.tool == "ls"
    ensures r.flag == "" || (IsFlag(r.flag) && r.flag in args)
    ensures r.path == "" || (IsPath(r.path) && r.path in args)
    decreases |args|
  {
    if args == [] then Config("", "", "")
    else Classify(Scan(args[..|args| - 1]), args[|args| - 1])
  }

  /** `Config::new`: the scan over the arguments, each token overwriting the
      field it belongs to. It never fails. */
  method NewConfig(args: seq<string>) returns (r: Result<Config>)
    ensures r == Ok(Scan(args))
  {
    var config := Config("", "", "");
    for i := 0 to |args|
      invariant config == Scan(args[..i])
    {
      var arg := args[i];
      if '-' in arg {
        config := config.(flag := arg);
      } else if arg == "ls" {
        config := config.(tool := "ls");
      } else {
        config := config.(path := arg);
      }
      assert args[..i + 1][..i] == args[..i];
    }
    assert args[..|args|] == args;
    return Ok(config);
  }

  /** The flag is the last token with a hyphen, and empty when there is
      none. */
  lemma {:induction false} ScanFlag(args: seq<string>)
    ensures Scan(args).flag == "" <==> forall i :: 0 <= i < |args| ==> !IsFlag(args[i])
    ensures forall i :: 0 <= i < |args| && IsFlag(args[i]) ==>
      (forall j :: i < j < |args| ==> !IsFlag(args[j])) ==> Scan(args).flag == args[i]
    decreases |args|
  {
    if args != [] {
      var front := args[..|args| - 1];
      ScanFlag(front);
      assert forall i :: 0 <= i < |front| ==> front[i] == args[i];
    }
  }

  /** The path is the last token that is neither a flag nor `ls`, and empty
      when there is none. */
  lemma {:induction false} ScanPath(args: seq<string>)
    ensures (forall i :: 0 <= i < |args| ==> !IsPath(args[i])) ==> Scan(args).path == ""
    ensures forall i :: 0 <= i < |args| && IsPath(args[i]) ==>
      (forall j :: i < j < |args| ==> !IsPath(args[j])) ==> Scan(args).path == args[i]
    decreases |args|
  {
    if args != [] {
      var front := args[..|args| - 1];
      ScanPath(front);
      assert forall i :: 0 <= i < |front| ==> front[i] == args[i];
    }
  }

  /** The tool is "ls" exactly when some token is `ls`, and empty
      otherwise. */
  lemma {:induction false} ScanTool(args: seq<string>)
    ensures Scan(args).tool == if "ls" in args then "ls" else ""
    decreases |args|
  {
    if args != [] {
      var front := args[..|args| - 1];
      ScanTool(front);
      assert args == front + [args[|args| - 1]];
      assert "ls" in args <==> "ls" in front || args[|args| - 1] == "ls";
    }
  }

  /** What the program does, as a value: the help text, a long or a short
      listing of a path, or nothing. */
  datatype Action = Help | LongListing(path: string) | ShortListing(path: string) | Nothing

  /** `run`: "-h" asks for help, "-l" for a long listing, and any other flag,
      the empty one included, for a short listing of the path. */
  function Run(cfg: Config): (a: Action)
    ensures a != Nothing
    ensures a == Help <==> cfg.flag == "-h"
    ensures a.LongListing? <==> cfg.flag == "-l"
    ensures a.ShortListing? <==> cfg.flag != "-h" && cfg.flag != "-l"
    ensures !a.Help? ==> a.path == cfg.path
  {
    match cfg.flag
    case "-h" => Help
    case "-l" => LongListing(cfg.path)
    case _ => ShortListing(cfg.path)
  }

  /** `main`: scan the arguments, then run only when `ls` was named. */
  function Main(args: seq<string>): (a: Action)
    ensures a == Nothing <==> "ls" !in args
    ensures a == Help ==> "-h" in args
    ensures a.LongListing? ==> "-l" in args
    ensures a.LongListing? || a.ShortListing? ==> a.path == "" || a.path in args
  {
    ScanTool(args);
    var cfg := Scan(args);
    if cfg.tool == "ls" then Run(cfg) else Nothing
  }

  /** The token `flag` is the last token with a hyphen. */
  predicate LastFlagIs(args: seq<string>, flag: string) {
    exists i :: 0 <= i < |args| && args[i] == flag && forall j :: i < j < |args| ==> !IsFlag(args[j])
  }

  /** The program in terms of its arguments: nothing happens without an `ls`
      token; with one, the last hyphen token decides between help, a long
      listing and a short listing, and a listing is of the last path token. */
  lemma MainMeaning(args: seq<string>)
    ensures Main(args) == Nothing <==> "ls" !in args
    ensures Main(args) == Help <==> "ls" in args && LastFlagIs(args, "-h")
    ensures Main(args).LongListing? <==> "ls" in args && LastFlagIs(args, "-l")
    ensures Main(args).ShortListing? <==>
      "ls" in args && !LastFlagIs(args, "-h") && !LastFlagIs(args, "-l")
    ensures Main(args).LongListing? || Main(args).ShortListing? ==> Main(args).path == Scan(args).path
  {
    ScanTool(args);
    ScanFlag(args);
    var flag := Scan(args).flag;
    forall x | x == "-h" || x == "-l"
      ensures LastFlagIs(args, x) <==> flag == x
    {
      if LastFlagIs(args, x) {
        var i :| 0 <= i < |args| && args[i] == x && forall j :: i < j < |args| ==> !IsFlag(args[j]);
        assert IsFlag(args[i]);
      }
      if flag == x {
        LastFlagWitness(args);
      }
    }
  }

  /** A non-empty flag is some token with no hyphen token after it. */
  lemma {:induction false} LastFlagWitness(args: seq<string>)
    requires Scan(args).flag != ""
    ensures LastFlagIs(args, Scan(args).flag)
    decreases |args|
  {
    var n := |args|;
    var front := args[..n - 1];
    if IsFlag(args[n - 1]) {
      assert args[n - 1] == Scan(args).flag;
    } else {
      assert Scan(args).flag == Scan(front).flag;
      LastFlagWitness(front);
      var i :| 0 <= i < |front| && front[i] == Scan(front).flag
        && forall j :: i < j < |front| ==> !IsFlag(front[j]);
      assert forall j :: i < j < n ==> !IsFlag(args[j]) by {
        forall j | i < j < n ensures !IsFlag(args[j]) {
          if j < n - 1 { assert args[j] == front[j]; }
        }
      }
      assert args[i] == Scan(args).flag;
    }
  }

  /** The command lines a user would try first. */
  lemma MainExamples()
    ensures Main(["prog", "ls", "-l", "/tmp"]) == LongListing("/tmp")
    ensures Main(["prog", "ls", "/tmp", "-h"]) == Help
    ensures Main(["prog", "/tmp"]) == Nothing
    ensures Main(["prog", "ls"]) == ShortListing("prog")
  {
    assert !IsFlag("prog") && !IsFlag("/tmp") && !IsFlag("ls") && IsFlag("-l") && IsFlag("-h");
    var a1 := ["prog", "ls", "-l", "/tmp"];
    MainMeaning(a1);
    ScanPath(a1);
    assert a1[1] == "ls" && a1[2] == "-l" && IsPath(a1[3]);
    assert LastFlagIs(a1, "-l");
    var a2 := ["prog", "ls", "/tmp", "-h"];
    MainMeaning(a2);
    assert a2[1] == "ls" && a2[3] == "-h";
    assert LastFlagIs(a2, "-h");
    var a3 := ["prog", "/tmp"];
    MainMeaning(a3);
    assert "ls" !in a3;
    var a4 := ["prog", "ls"];
    MainMeaning(a4);
    ScanPath(a4);
    assert a4[1] == "ls" && IsPath(a4[0]) && !IsPath(a4[1]);
    assert !LastFlagIs(a4, "-h") && !LastFlagIs(a4, "-l");
  }

  /** The line short mode prints for an entry: its name and one space. */
  function ShortLine(name: string): (line: string)
    ensures |line| == |name| + 1
    ensures line[..|name|] == name && line[|name|] == ' '
  {
    name + " "
  }
}
