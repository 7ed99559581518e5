/** Runs the scripts embedded in `custom` sources and actions (executor.py):
    line endings are normalised, a key is made for the script, and a compiled
    artifact is looked up in, or added to, the executor's private cache. */
module Executing {
  import opened Xml
  import opened Environment
  import opened Caching

  // ---------------------------------------------------------------------
  // Line-ending normalisation: code.replace('\r\n', '\n')
  // ---------------------------------------------------------------------

  /** Every "\r\n" replaced by "\n", scanning left to right. */
  function Normalize(s: string): (r: string)
    ensures |r| <= |s|
    decreases |s|
  {
    if s == [] then []
    else if |s| >= 2 && s[0] == '\r' && s[1] == '\n' then "\n" + Normalize(s[2..])
    else [s[0]] + Normalize(s[1..])
  }

  /** `s` holds no "\r\n" pair. */
  predicate NoCrlf(s: string) {
    forall i :: 0 <= i < |s| - 1 ==> !(s[i] == '\r' && s[i + 1] == '\n')
  }

  /** Text without a "\r\n" pair is left as it is. */
  lemma {:induction false} NormalizeKeepsUnix(s: string)
    requires NoCrlf(s)
    ensures Normalize(s) == s
    decreases |s|
  {
    if s != [] {
      assert NoCrlf(s[1..]) by {
        forall i | 0 <= i < |s[1..]| - 1 ensures !(s[1..][i] == '\r' && s[1..][i + 1] == '\n') {
          assert s[1..][i] == s[i + 1] && s[1..][i + 1] == s[i + 2];
        }
      }
      NormalizeKeepsUnix(s[1..]);
    }
  }

  /** Normalisation distributes over a concatenation that does not split a
      "\r\n" pair. */
  lemma {:induction false} NormalizeAppend(a: string, b: string)
    requires !(a != [] && a[|a| - 1] == '\r' && b != [] && b[0] == '\n')
    ensures Normalize(a + b) == Normalize(a) + Normalize(b)
    decreases |a|
  {
    if a == [] {
      assert a + b == b;
    } else if |a| >= 2 && a[0] == '\r' && a[1] == '\n' {
      assert (a + b)[2..] == a[2..] + b;
      NormalizeAppend(a[2..], b);
    } else if |a| == 1 && a[0] == '\r' {
      assert a + b == ['\r'] + b;
      assert b == [] || b[0] != '\n';
      assert (a + b)[1..] == b;
    } else {
      assert (a + b)[0] == a[0];
      assert (a + b)[1..] == a[1..] + b;
      NormalizeAppend(a[1..], b);
    }
  }

  /** Lines joined with a separator. */
  function JoinLines(lines: seq<string>, sep: string): string {
    if lines == [] then ""
    else if |lines| == 1 then lines[0]
    else lines[0] + sep + JoinLines(lines[1..], sep)
  }

  /** A script written with "\r\n" line endings becomes the same script
      written with "\n" line endings. */
  lemma {:induction false} NormalizeCrlfScript(lines: seq<string>)
    requires forall i :: 0 <= i < |lines| ==> NoCrlf(lines[i])
    ensures Normalize(JoinLines(lines, "\r\n")) == JoinLines(lines, "\n")
  {
    if |lines| == 1 {
      NormalizeKeepsUnix(lines[0]);
    } else if |lines| > 1 {
      var rest := JoinLines(lines[1..], "\r\n");
      assert JoinLines(lines, "\r\n") == lines[0] + ("\r\n" + rest);
      NormalizeAppend(lines[0], "\r\n" + rest);
      NormalizeKeepsUnix(lines[0]);
      assert ("\r\n" + rest)[2..] == rest;
      NormalizeCrlfScript(lines[1..]);
    }
  }

  // ---------------------------------------------------------------------
  // The executor
  // ---------------------------------------------------------------------

  class Executor {
    var name: Option<string>
    /** The normalised script; None while no code was ever set. */
    var code: Option<string>
    var key: Key?
    var tree: Option<Node>
    /** The artifact last compiled or retrieved. */
    var out: Option<Code>
    const execCache: Cache<Code>
    const host: Host
    /** How many times `compile` was called. */
    ghost var compilations: nat

    /** `Executor(name, code, tree)`. The key made by setCode is overwritten
        with None straight afterwards. */
    constructor(name: Option<string>, code: Option<string>, tree: Option<Node>, host: Host)
      ensures fresh(execCache) && execCache.cache == map[]
      ensures this.name == name && this.tree == tree && this.host == host
      ensures this.code == (if Truthy(code) then Some(Normalize(code.value)) else None)
      ensures key == null && out == None && compilations == 0
    {
      execCache := new Cache(0, (c: Code) => true);
      this.host := host;
      this.code := None;
      compilations := 0;
      new;
      SetName(name);
      SetCode(code);
      SetTree(tree);
      out := None;
      key := null;
    }

    method SetName(name: Option<string>)
      modifies this`name
      ensures this.name == name
    {
      this.name := name;
    }

    method SetTree(tree: Option<Node>)
      modifies this`tree
      ensures this.tree == tree
    {
      this.tree := tree;
    }

    /** Stores the code with "\r\n" normalised and makes a new key from the
        raw text; empty or missing code changes nothing. */
    method SetCode(code: Option<string>)
      modifies this`code, this`key
      ensures Truthy(code) ==> this.code == Some(Normalize(code.value))
      ensures Truthy(code) ==> fresh(key) && key.digested == code.value
      ensures !Truthy(code) ==> this.code == old(this.code) && key == old(key)
    {
      if Truthy(code) {
        this.code := Some(Normalize(code.value));
        key := execCache.GetKey(code.value);
      }
    }

    /** The script handed over by a custom source or action: its name, its
        normalised code and its key. */
    function Script(): (Option<string>, Option<string>, Key?)
      reads this
    {
      (name, code, key)
    }

    /** Whether an artifact is at hand to run: the cache had one for the
        key, or the code compiles and can be added under the key. */
    predicate Runnable(hit: bool)
      reads this
    {
      hit || (code.Some? && host.compile(code.value).Some? && key != null)
    }

    /** On a cache miss: compile the code once and add the artifact under the
        current key. On a hit: reuse the stored artifact. Then run it with
        the current tree and an output text that starts empty, and return
        the output text it leaves. */
    method RunAction() returns (r: Outcome<string>)
      modifies this`out, this`tree, this`compilations, execCache
      ensures old(execCache.Contains(key)) ==>
        && compilations == old(compilations)
        && execCache.cache == old(execCache.cache)
        && out == old(execCache.Retrieve(key))
      ensures !old(execCache.Contains(key)) ==>
        && (code.None? ==> r == Crash(CodeUnset) && unchanged(this, execCache))
        && (code.Some? ==> compilations == old(compilations) + 1)
        && (code.Some? && host.compile(code.value).None? ==>
              r == Crash(CompileFailed) && tree == old(tree) && unchanged(execCache))
        && (code.Some? && host.compile(code.value).Some? ==>
              && out == host.compile(code.value)
              && (key == null ==> r == Crash(ArtifactNotHashable) && tree == old(tree) && unchanged(execCache))
              && (key != null ==> execCache.cache == old(execCache.cache)[key := out.value]))
      ensures Runnable(old(execCache.Contains(key))) ==>
        && out.Some?
        && match host.exec(out.value, old(tree), Some(""))
           case Raised => r == Crash(ScriptFailed) && tree == old(tree)
           case Finished(t, text) => r == Done(text) && tree == Some(t)
    {
      if !execCache.Contains(key) {
        if code.None? {
          return Crash(CodeUnset);
        }
        var compiled := host.compile(code.value);
        compilations := compilations + 1;
        if compiled.None? {
          return Crash(CompileFailed);
        }
        out := compiled;
        var _ :- execCache.Add(compiled.value, key, None);
      } else {
        out := execCache.Retrieve(key);
      }
      match host.exec(out.value, tree, Some(""))
      case Raised =>
        r := Crash(ScriptFailed);
      case Finished(t, text) =>
        tree := Some(t);
        r := Done(text);
    }

    /** Like RunAction on a miss, and returns the tree the script leaves
        bound. A cache hit names `__execCache` unqualified and raises
        NameError. */
    method RunSource() returns (r: Outcome<Node>)
      modifies this`out, this`tree, this`compilations, execCache
      ensures old(execCache.Contains(key)) ==>
        r == Crash(ExecCacheUndefined) && unchanged(this, execCache)
      ensures !old(execCache.Contains(key)) ==>
        && (code.None? ==> r == Crash(CodeUnset) && unchanged(this, execCache))
        && (code.Some? ==> compilations == old(compilations) + 1)
        && (code.Some? && host.compile(code.value).None? ==>
              r == Crash(CompileFailed) && tree == old(tree) && unchanged(execCache))
        && (code.Some? && host.compile(code.value).Some? ==>
              && out == host.compile(code.value)
              && (key == null ==> r == Crash(ArtifactNotHashable) && tree == old(tree) && unchanged(execCache))
              && (key != null ==> execCache.cache == old(execCache.cache)[key := out.value]))
      ensures !old(execCache.Contains(key)) && Runnable(false) ==>
        && out.Some?
        && match host.exec(out.value, old(tree), None)
           case Raised => r == Crash(ScriptFailed) && tree == old(tree)
           case Finished(t, _) => r == Done(t) && tree == Some(t)
    {
      if !execCache.Contains(key) {
        if code.None? {
          return Crash(CodeUnset);
        }
        var compiled := host.compile(code.value);
        compilations := compilations + 1;
        if compiled.None? {
          return Crash(CompileFailed);
        }
        out := compiled;
        var _ :- execCache.Add(compiled.value, key, None);
      } else {
        return Crash(ExecCacheUndefined);
      }
      match host.exec(out.value, tree, None)
      case Raised =>
        r := Crash(ScriptFailed);
      case Finished(t, _) =>
        tree := Some(t);
        r := Done(t);
    }
  }
}
