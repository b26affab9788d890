/** Command-line helpers (src/parse_args.cpp): the output file name built
    from an input path, the verbosity map and the log-level choice. */
module ParseArgs {
  import Wrappers

  /** The part of `p` after its last `/` (the filename of a POSIX path; empty
      when `p` ends with `/`). */
  function FileName(p: string): (f: string)
    ensures '/' !in f
    ensures |f| <= |p| && p[|p| - |f|..] == f
    ensures |f| < |p| ==> p[|p| - |f| - 1] == '/'
  {
    if |p| == 0 then []
    else if p[|p| - 1] == '/' then []
    else FileName(p[..|p| - 1]) + [p[|p| - 1]]
  }

  /** The position of the last `.` in `f` at or after index 1, if any. */
  function LastDot(f: string): (k: Wrappers.Option<nat>)
    ensures k.Some? ==>
      (1 <= k.value < |f| && f[k.value] == '.' && forall i :: k.value < i < |f| ==> f[i] != '.')
    ensures k.None? ==> forall i :: 1 <= i < |f| ==> f[i] != '.'
  {
    if |f| <= 1 then Wrappers.None
    else if f[|f| - 1] == '.' then Wrappers.Some(|f| - 1)
    else LastDot(f[..|f| - 1])
  }

  /** A filename with its extension removed, as `replace_extension()` does:
      the extension starts at the last `.`, except that a leading `.` does not
      start one and the special name `..` has none. */
  function Stem(f: string): (s: string)
    ensures |s| <= |f| && f[..|s|] == s
  {
    if f == ".." then f
    else match LastDot(f)
      case None => f
      case Some(k) => f[..k]
  }

  /** `OutName`: the base name, a dash, the suffix, a dot and the extension;
      the base is `oName` unless it is empty, in which case it is the stem of
      the input's filename. */
  function OutName(iName: string, oName: string, suffix: string, extension: string): (r: string)
    ensures var base := if oName == [] then Stem(FileName(iName)) else oName;
      r == base + ['-'] + suffix + ['.'] + extension
  {
    (if |oName| == 0 then Stem(FileName(iName)) else oName) + "-" + suffix + "." + extension
  }

  /** The stem removes exactly one extension: either nothing is removed, or
      the removed part starts with the only `.` it contains and the stem left
      behind is not empty. */
  lemma StemRemovesExtension(f: string)
    ensures var s := Stem(f);
      || s == f
      || (0 < |s| < |f| && f[|s|] == '.' && forall i :: |s| < i < |f| ==> f[i] != '.')
  {
  }

  /** The stem is the whole filename exactly when it is `..` or holds no `.`
      after its first character. */
  lemma StemKeepsWhole(f: string)
    ensures Stem(f) == f <==> f == ".." || forall i :: 1 <= i < |f| ==> f[i] != '.'
  {
    if f != ".." && LastDot(f).Some? {
      assert |Stem(f)| < |f|;
    }
  }

  /** The input's directories never reach the output name. */
  lemma OutNameDropsDirectories(dir: string, name: string, suffix: string, extension: string)
    requires '/' !in name
    ensures OutName(dir + ['/'] + name, [], suffix, extension)
         == Stem(name) + ['-'] + suffix + ['.'] + extension
  {
    FileNameOfJoin(dir, name);
  }

  lemma {:induction false} FileNameOfJoin(dir: string, name: string)
    requires '/' !in name
    ensures FileName(dir + ['/'] + name) == name
  {
    if |name| > 0 {
      var init := name[..|name| - 1];
      assert (dir + ['/'] + name)[..|dir + ['/'] + name| - 1] == dir + ['/'] + init;
      assert '/' !in init by {
        forall i | 0 <= i < |init| ensures init[i] != '/' {
          assert init[i] == name[i];
        }
      }
      FileNameOfJoin(dir, init);
      assert init + [name[|name| - 1]] == name;
    }
  }

  /** The log levels, quietest first. */
  datatype Level = None | Info | Debug | Images

  /** `levelMap`: 0, 1, 2, 3 name the four levels in order; other values are
      not accepted by the `--verbosity` flag. */
  function LevelOf(k: int): (r: Wrappers.Option<Level>)
    ensures r.Some? <==> 0 <= k <= 3
  {
    match k
    case 0 => Wrappers.Some(None)
    case 1 => Wrappers.Some(Info)
    case 2 => Wrappers.Some(Debug)
    case 3 => Wrappers.Some(Images)
    case _ => Wrappers.None
  }

  /** A level's position in the order of the map. */
  function Rank(l: Level): (k: nat)
    ensures k <= 3
  {
    match l
    case None => 0
    case Info => 1
    case Debug => 2
    case Images => 3
  }

  /** The map is a bijection between 0..3 and the levels, ordered by rank. */
  lemma LevelOfRank(l: Level, k: int)
    ensures LevelOf(Rank(l)) == Wrappers.Some(l)
    ensures LevelOf(k).Some? ==> Rank(LevelOf(k).value) == k
  {
  }

  /** The level chosen in `ParseCommand`: the `--verbosity` value if given,
      else `Info` under `--verbose`, else `None`. */
  function SelectLevel(verbosity: Wrappers.Option<Level>, verbose: bool): (l: Level)
    ensures verbosity.Some? ==> l == verbosity.value
    ensures verbosity.None? ==> (l == Info <==> verbose) && (l == None <==> !verbose)
  {
    match verbosity
    case Some(v) => v
    case None => if verbose then Info else None
  }

  /** `--verbose` alone never selects more than `Info`, and `--verbosity`
      overrides it either way. */
  lemma VerbosityOverridesVerbose(verbosity: Wrappers.Option<Level>, verbose: bool)
    ensures verbosity.Some? ==> SelectLevel(verbosity, verbose) == SelectLevel(verbosity, !verbose)
    ensures verbosity.None? ==> Rank(SelectLevel(verbosity, verbose)) <= 1
  {
  }

  /** `ParseCommand` for a command that needs an input file: the chosen log
      level, or the argument error raised when no input file was given. */
  function ParseCommand(iname: Wrappers.Option<string>, verbosity: Wrappers.Option<Level>, verbose: bool): (r: Wrappers.Result<Level, string>)
    ensures r.Err? <==> iname.None?
    ensures r.Err? ==> r.error == "No input file specified"
    ensures r.Ok? ==> r.value == SelectLevel(verbosity, verbose)
  {
    if iname.None? then Wrappers.Err("No input file specified")
    else Wrappers.Ok(SelectLevel(verbosity, verbose))
  }
}
