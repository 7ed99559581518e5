# XDRA model interpreter, modelled in Dafny

XDRA turns an XML *model* document into an output document. The interpreter
(`ModelParser`) walks the model in document order:

- `{xdra}source` declares a source tree: a directory of XML files, a URL, or a `custom` script that builds a tree.
- `{xdra}query` sets the path context.
- `{xdra}action` chooses how matched records are arranged: `sort`, `reversesort`, or a `custom` script.
- `{xdra}getnode` gathers the records at a path from every source and prints them, either through its children or serialised verbatim.
- `{xdra}getcontent` prints the text at a path inside the current record.
- `{xdra}literal` echoes its contents.
- Every other element is echoed as markup, and its children are interpreted in turn.

The project models four parts of the system:

- **The interpreter** (`modelparser.dfy`, module `ModelParsing`): a class holding the interpreter's mutable context. This is the source lists, the query path, the nesting level, and the current action type and sort key.
- **The record sort** (`sort.dfy`, module `Sorting`): an in-place stable sort on an array. It is proved against a functional stable insertion sort, which is shown to be a permutation, ordered and stable.
- **The script executor** (`executor.dfy`, module `Executing`): line-ending normalisation, plus the compile-once cache protocol around `compile` and `exec`.
- **The compiled-script cache** (`cache.dfy`, module `Caching`).

`xml.dfy` (module `Xml`) holds the element trees and the part of the element library the interpreter uses: attribute lookup, `findall` and `findtext`. `environment.dfy` (module `Environment`) holds the exceptions that can escape a call and a `Host` value. `Host` stands for everything this model does not cover: element truthiness, `tostring`, file parsing, source loading (conglomerator.py), Python's `compile` and `exec`, and the `DEBUG` setting.

Exceptions are values of type `Outcome`. Handlers pass them on with `:-`, as Python lets them propagate. The only `try`/`except` in the interpreter is the one around a nested model, and the model swallows a failure there in the same way.

Three behaviours of the code differ from what its docstrings and structure suggest, and the model keeps the code's behaviour:

- A `{xdra}source` inside a `{xdra}query` is not added as a local source. `parseQuery` passes the bare name `localsources`, which raises NameError before `parseSource` is called (modelparser.py:355). The parser's own `self.localsources` is only ever cleared.
- A `{xdra}getcontent` with a `path` outside a getnode does not print nothing. It fails on `None.findtext` (modelparser.py:181).
- A failure in one subtree is not contained. It aborts the whole evaluation, up to the nearest enclosing nested model (modelparser.py:130-152, 456-476).

## Model

| member | source | states |
|---|---|---|
| `Xml.Lookup` | modelparser.py:176 | `attrib.get(name)` finds a value exactly when some attribute has that name, and the pair is one of the element's attributes |
| `Xml.FindAll` | modelparser.py:229 | every match carries the path's tag; a path form the model does not support matches nothing |
| `Xml.FindTextChild` | modelparser.py:181 | `findtext("./tag")` is None exactly when no child has that tag; otherwise it is the text of the first such child in document order ("" when it has none) |
| `Xml.FindTextDescendant` | sort.py:36-37 | `findtext(".//tag")` is None exactly when no descendant has that tag; otherwise it is the text of the first such descendant in document order |
| `Xml.FindAllChildren` | modelparser.py:229 | `./tag` finds exactly the direct children with that tag, in document order |
| `Xml.FindAllDescendants` | sort.py:36-37 | `.//tag` finds exactly the descendants with that tag, in document order |
| `Caching.Cache.constructor` | cache.py:21-35 | a new cache is empty and records `maxsize` |
| `Caching.Cache.GetKey` | cache.py:37-49 | every call gives a new key object over the text, distinct from every existing key |
| `Caching.Cache.Add` | cache.py:51-67 | the item is stored under the given key, or under a new key digesting the item when it is text; without a key, an item that is not text fails as md5 does and nothing changes; any old entry is replaced; no key is dropped; the key is returned and retrieves the item |
| `Caching.Cache.Remove` | cache.py:69-81 | the key's entry is gone afterwards and nothing else changes; an absent key is ignored silently |
| `Caching.Cache.Contains` | cache.py:83-98 | true exactly when the key is present and its item is truthy, and then `Retrieve` finds it |
| `Caching.Cache.Retrieve` | cache.py:100-114 | the stored item when the key is present, None otherwise |
| `Executing.Normalize` | executor.py:75 | replacing "\r\n" by "\n" never lengthens the text |
| `Executing.NormalizeKeepsUnix` | executor.py:75 | text without a "\r\n" pair is left as it is |
| `Executing.NormalizeAppend` | executor.py:75 | normalising distributes over a concatenation that does not split a "\r\n" pair |
| `Executing.NormalizeCrlfScript` | executor.py:61-76 | a script written with "\r\n" line endings becomes the same script with "\n" line endings |
| `Executing.Executor.constructor` | executor.py:22-39 | name and tree are stored; code is stored normalised when given; the key is None again afterwards; no artifact; a fresh empty cache |
| `Executing.Executor.SetName` | executor.py:41-49 | overwrites the name and nothing else |
| `Executing.Executor.SetTree` | executor.py:51-59 | overwrites the tree and nothing else |
| `Executing.Executor.SetCode` | executor.py:61-76 | non-empty code is stored with "\r\n" normalised, and a new key is made from the raw text; empty or missing code changes neither code nor key |
| `Executing.Executor.RunAction` | executor.py:78-100 | a cache hit reuses the stored artifact without compiling; a miss compiles exactly once and adds the artifact under the current key, or fails when there is no code, compilation fails, or the key is None (md5 cannot digest a code object); once an artifact is at hand the script runs from the current tree and an empty output text: its output text is returned and its tree kept when it finishes, and the call fails with the tree unchanged exactly when the script raises |
| `Executing.Executor.RunSource` | executor.py:102-123 | a cache miss compiles and caches as in RunAction; with an artifact at hand, the tree the script leaves bound is returned when it finishes, and the call fails exactly when the script raises; a cache hit fails on the unqualified `__execCache` and changes nothing |
| `Sorting.LowerFolds` | sort.py:36-37 | `lower()` keeps the length, leaves no ASCII capital, keeps every other character, and is idempotent |
| `Sorting.LtTransitive` | sort.py:36-37 | Python's string comparison is transitive |
| `Sorting.LtTotal` | sort.py:36-37 | any two different strings are ordered one way or the other |
| `Sorting.NotLtChain` | sort.py:36-37 | "not less than" is transitive, so equal keys form one block |
| `Sorting.StableSortPermutes` | sort.py:36-44 | the sorted list is a permutation of the input |
| `Sorting.StableSortOrdered` | sort.py:36-44 | along the sorted list no record's key comes strictly before an earlier record's key, in the chosen direction |
| `Sorting.AscendingKeys` | sort.py:42-43 | with `reverse=False` the lower-cased keys are non-decreasing |
| `Sorting.DescendingKeys` | sort.py:36-37 | with `reverse=True` the lower-cased keys are non-increasing |
| `Sorting.StableSortStable` | sort.py:36-38 | records with equal keys keep their input order in both directions, because the comparator is swapped rather than the list reversed |
| `Sorting.ShortListUnchanged` | sort.py:45-46 | lists of zero or one record come back unchanged |
| `Sorting.InsertionSort` | sort.py:36-44 | the array, sorted in place, is the stable sort of its old contents |
| `Sorting.Sort` | sort.py:17-46 | sorts the caller's list in place and returns the same list, leaving the stable sort of the input by lower-cased key text; every record of a list of two or more must have a key |
| `ModelParsing.ConcatAppend` | modelparser.py:204 | joining two lists of pieces gives the two joins concatenated |
| `ModelParsing.Joined` | modelparser.py:318-322 | a handler returns None exactly when it appended nothing |
| `ModelParsing.IndentLength` | modelparser.py:97 | the indentation at level n is n-1 tabs of four spaces |
| `ModelParsing.LiteralTextSplit` | modelparser.py:200-205 | a literal prints its text when it has any, then every child serialised, in document order |
| `ModelParsing.QueryPath` | modelparser.py:337-340 | a non-empty query path loses one trailing "/" if it has one; otherwise it is kept as it is |
| `ModelParsing.QueryPathStripsOne` | modelparser.py:337-340 | exactly one trailing "/" is removed |
| `ModelParsing.RecordsSnoc` | modelparser.py:227-229 | one more source adds its matches at the end of the record list |
| `ModelParsing.RecordsAppend` | modelparser.py:227-229 | the record list is the concatenation of every source's matches, in source-list order |
| `ModelParsing.RecordsMembership` | modelparser.py:227-229 | a record is gathered exactly when some source finds it |
| `ModelParsing.ArrangeIsSortedBy` | modelparser.py:235-240 | `reversesort` sorts descending and `sort` sorts ascending |
| `ModelParsing.ArrangeSorts` | modelparser.py:232-240 | with a key, `sort` and `reversesort` give a permutation of the records, ordered by key in that direction |
| `ModelParsing.ArrangeMissingKey` | modelparser.py:232-240 | sorting two or more records when one has no key fails |
| `ModelParsing.ArrangeKeepsOrder` | modelparser.py:232-244 | without a sort type or without a key, the records keep their order |
| `ModelParsing.EchoAll` | modelparser.py:272-274 | when every record is truthy, a childless getnode serialises every record, in order |
| `ModelParsing.ModelParser.constructor` | modelparser.py:37-52 | both source lists are empty whatever was passed in, and the context is reset; the executor is new, with no code and no key |
| `ModelParsing.ModelParser.Reset` | modelparser.py:54-75 | `reset(False)` empties both source lists and `reset(True)` keeps them; both set querypath, atype and skey to "" and level to 0 |
| `ModelParsing.ModelParser.Indentation` | modelparser.py:97 | the indentation written at the current level |
| `ModelParsing.ModelParser.AttributeText` | modelparser.py:99-100 | every attribute is written as ` name="value"`, in order |
| `ModelParsing.ModelParser.ParseGetContent` | modelparser.py:164-183 | no path gives None; a path without a record fails; a path with a record always succeeds, with a text exactly when the path matches something in the record, and that text is the first match's |
| `ModelParsing.ModelParser.GetContentChild` | modelparser.py:176-183 | `path="./title"` prints the text of the record's first `title` child, or nothing when it has none |
| `ModelParsing.ModelParser.ParseLiteral` | modelparser.py:185-205 | the literal's text, when it has any, then every child serialised in document order |
| `ModelParsing.ModelParser.GatherRecords` | modelparser.py:221-229 | the concatenation of `findall(path)` over the global sources, in order; a missing path fails unless there is no source |
| `ModelParsing.ModelParser.ArrangeRecords` | modelparser.py:232-244 | `sort` and `reversesort` with a key sort the records (or fail on a record without a key); any other type ending in "sort" fails in debug mode and changes nothing otherwise; any other action leaves the order unchanged |
| `ModelParsing.ModelParser.NestedModel` | modelparser.py:456-476 | a nested model with a path that cannot be loaded (or is one level too deep) gives nothing; a pathless one is evaluated only when the caller asks, and a childless one then gives its tail or the no-output message; a model loaded by path whose root is not `{xdra}model` gives nothing, and a childless one gives its tail or the no-output message; whatever it gives is never empty |
| `ModelParsing.ModelParser.XmlChild` | modelparser.py:105-156 | the level is the same afterwards; a child free of queries leaves the query path alone; a subtree without sources or actions leaves the executor's script (name, code, key) as it was; inside an element a pathless nested model without children prints nothing |
| `ModelParsing.ModelParser.ParseXml` | modelparser.py:77-162 | a childless element prints as its open tag with " />" and changes nothing; otherwise the output starts with the indented open tag and attributes and ends with the indented close tag; the level is the same afterwards; a subtree free of queries leaves the query path alone; a subtree without sources or actions leaves the executor's script (name, code, key) as it was |
| `ModelParsing.ModelParser.Echo` | modelparser.py:272-274 | the serialised form of every truthy record, in order |
| `ModelParsing.ModelParser.EachRecord` | modelparser.py:252-271 | the level is the same afterwards; every appended piece is non-empty; a subtree without sources or actions leaves the executor's script (name, code, key) as it was |
| `ModelParsing.ModelParser.ParseGetNode` | modelparser.py:207-279 | the level is the same afterwards; a childless getnode outside a custom action prints exactly its gathered and arranged records serialised (None when no record is truthy), or fails as gathering or sorting does, and changes none of the interpreter's context; a subtree without sources or actions leaves the executor's script (name, code, key) as it was |
| `ModelParsing.ModelParser.ParseAction` | modelparser.py:281-322 | on return the action type and key are "" whatever the children did; a custom action hands its name, its normalised code and a new key to the executor, and that script is still the executor's on return unless a source or action below replaces it; other actions leave the executor's script alone; an action whose children are all literals returns exactly their non-empty texts joined, or None when there are none |
| `ModelParsing.ModelParser.ActionChild` | modelparser.py:303-315 | the level is the same afterwards; a literal child contributes exactly its text when non-empty; every contributed piece is non-empty; a child free of queries keeps the query path, and one free of sources and actions keeps the executor's script |
| `ModelParsing.ModelParser.ParseQuery` | modelparser.py:324-370 | the query path is the `path` attribute minus one trailing "/" (unless a nested query overrides it); local sources are empty afterwards; a query with a source child always fails, and fails on `localsources` when the source comes first; a subtree without sources or actions leaves the executor's script (name, code, key) as it was; a query whose children are all literals returns exactly their non-empty texts joined, or None when there are none |
| `ModelParsing.ModelParser.ParseSource` | modelparser.py:372-424 | `files` with a path and a name, or `url`, loads a tree and appends it to the chosen list when it is truthy, or fails when loading fails; `custom` with code hands the name and normalised code to the executor with a new key, then fails if the code does not compile or the script raises, and otherwise appends the tree the script leaves to the global list; other types, and `files` without a path or name, change nothing; the query context is never touched |
| `ModelParsing.ModelParser.ModelChild` | modelparser.py:444-482 | the level is the same afterwards; at the top of a model a pathless nested model with children prints nothing |
| `ModelParsing.ModelParser.ParseModel` | modelparser.py:426-490 | a root that is not `{xdra}model` gives None and changes nothing; otherwise the output is never empty; a model with no children gives its tail, or the no-output message; the level is the same afterwards |

## Left out

- Writing the output to the file named by the `output` attribute (modelparser.py:486-489), the stray `print` (modelparser.py:137), every debug print and the command-line block (modelparser.py:493-506). These are I/O.
- The directory and URL loader (conglomerator.py) is not part of this model. `getDocObj` is a `Host` function that either yields a tree or fails. The loader's file list, which the recursive search keeps extending between calls, is therefore not captured.
- The element library is represented by `Host` functions: `tostring`, element truthiness and file parsing. Only the path forms `tag`, `./tag` and `.//tag` are implemented. Any other path, including "", matches nothing here.
- Attributes are written in the element's own order. The library's `keys()` order comes from a dictionary.
- `compile` and `exec` are opaque `Host` functions. A script's effect is a new tree value and an output text. The model works on values: a script that edits matched records in place also edits the source trees they came from, and that sharing is not captured. Rebinding `xdra_tree` is not distinguished from editing the bound tree. `xdra_outtext` is taken to be a string.
- The md5 digest is left out. A key is a new object per call, which is how md5 hash objects compare.
- Python's recursion limit on nested models loaded by path is the `depth` bound. Exceeding it gives the same empty contribution as the swallowed exception.
- `lower()` is modelled on ASCII letters only.
- A custom source without a `name` builds `Element(None)`. The model gives that tree the tag "".
- The `reset()` that parseXML calls on a nested parser after it returns is not modelled. That parser is discarded straight afterwards, so the call has no visible effect.
- The query `type` attribute is read but never used (modelparser.py:346), so the model does not read it.
- Exceptions from the library itself, such as `tostring` failing, are not modelled.
- `ModelParsing.ModelParser.ParseGetNode`: the contract does not state the output of a custom action or of a getnode with children, only the level, the query path and the childless non-custom case.
- `ModelParsing.ModelParser.ParseXml`: the contract states the opening and closing markup, not the children's text in between.
- `ModelParsing.ModelParser.ParseModel`: the contract states the invalid-root, childless and non-empty cases, not the text each child contributes.
- `ModelParsing.ModelParser.XmlChild`: the contract states only that the level, the query path and the executor's script are kept, not the pieces each directive produces.
- `ModelParsing.ModelParser.ModelChild`: the contract states only that the level is kept and that a pathless nested model with children prints nothing.
- `ModelParsing.ModelParser.ParseQuery`: the returned text is stated only when every child is a literal, not for actions or elements inside the query.
- `ModelParsing.ModelParser.ParseAction`: the returned text is stated only when every child is a literal, not for getnodes or elements inside the action.
- `ModelParsing.ModelParser.ActionChild`: the pieces a getnode or an element contributes are not stated.
- `ModelParsing.ModelParser.NestedModel`: the text of a nested model with children is not stated, as for `ParseModel`.
- `ModelParsing.ModelParser.EachRecord`: the contract does not state which piece each record and child produce.
- `Caching.Cache.Add`: the caller says whether the item is text (`asText`), because the model's items are typed and Python checks that only at the md5 call. The executor passes "not text" for its code objects.
- `Executing.Executor.RunAction`: the tree the script leaves is stored back in `tree`. In the source the script edits the same object in place, and `self.tree` sees those edits.
