/** What the interpreter receives from outside its own code: the element
    library's truthiness and serialiser, file and URL loading, Python's
    `compile` and `exec` of embedded scripts, and the DEBUG setting. All of it
    is opaque here and enters the model as the fields of a `Host` value. */
module Environment {
  import opened Xml

  /** The exceptions that escape an interpreter call. */
  datatype Error =
    | LocalSourcesUndefined  // NameError on the bare `localsources` in parseQuery
    | ActionTypeUndefined    // NameError on the bare `atype` in a debug message of parseGetNode
    | ExecCacheUndefined     // NameError on the bare `__execCache` in runSource
    | CodeUnset              // AttributeError: no code was ever set on the executor
    | CompileFailed          // `compile` raised
    | ArtifactNotHashable    // md5 asked to digest something that is not text (add with key None)
    | ScriptFailed           // the embedded script raised
    | LoadFailed             // loading a `files` or `url` source raised
    | NoRecord               // getcontent outside a record: `None.findtext`
    | PathMissing            // `findall(None)`
    | MissingSortKey         // a sorted record has no key descendant: `None.lower()`

  /** A value, or the exception that interrupted its computation. */
  datatype Outcome<+T> = Done(value: T) | Crash(error: Error) {
    predicate IsFailure() {
      Crash?
    }

    function PropagateFailure<U>(): Outcome<U>
      requires Crash?
    {
      Crash(error)
    }

    function Extract(): T
      requires Done?
    {
      value
    }
  }

  /** A compiled code object; only its identity matters. */
  datatype Code = Code(id: nat)

  /** What running a script leaves behind: the tree bound to `xdra_tree` and
      the text bound to `xdra_outtext`, or the exception it raised. */
  datatype ExecResult = Finished(tree: Node, outtext: string) | Raised

  datatype Host = Host(
    debug: bool,
    // `if item:` on an element
    truthy: Node -> bool,
    // ElementTree.tostring
    tostring: Node -> string,
    // ElementTree.parse(path).getroot(); None when it raises
    parseFile: string -> Option<Node>,
    // FileInput.getDocObj(path, rootname, recursive, url); None when it raises
    getDocObj: (Option<string>, Option<string>, bool, bool) -> Option<Node>,
    // compile(code, '<string>', 'exec'); None when it raises
    compile: string -> Option<Code>,
    // exec of a code object with `xdra_tree` bound to the tree and, when given,
    // `xdra_outtext` bound to the text
    exec: (Code, Option<Node>, Option<string>) -> ExecResult)
}
