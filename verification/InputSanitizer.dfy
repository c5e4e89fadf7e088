/**
 Depth-limited sanitising of request data: src/middleware/security/securityMiddleware.ts:26-62.

 The input is a graph of arrays and objects, possibly shared or cyclic; the result is a fresh
 tree. The regular expressions are any functions from text to text.
 */
module InputSanitizer {
  import opened Environment
  import opened WhiteSpace

  const MAX_DEPTH: nat := 10

  /** Everything that is neither text nor an array or object passes through as it is. */
  datatype Value = Prim(id: int) | Str(text: string) | Ref(addr: nat)

  datatype Node = Arr(items: seq<Value>) | Obj(fields: seq<(string, Value)>)

  type Graph = map<nat, Node>

  datatype Tree =
    | Leaf(id: int)
    | Cleaned(text: string)
    | Elements(items: seq<Tree>)
    | Record(fields: seq<(string, Tree)>)

  /** One edge of a path: into an array element or an object property. */
  datatype Edge = At(index: nat) | Prop(key: string)

  type Pattern = string -> string

  /******* The graph, and paths through it *******/

  predicate IsHeld(g: Graph, v: Value) {
    v.Ref? ==> v.addr in g
  }

  predicate DistinctKeys<T>(fields: seq<(string, T)>) {
    forall i, j :: 0 <= i < j < |fields| ==> fields[i].0 != fields[j].0
  }

  /** References lead into the graph, and an object has each key once. */
  ghost predicate WellFormed(g: Graph) {
    forall a :: a in g ==> NodeOk(g, g[a])
  }

  ghost predicate NodeOk(g: Graph, node: Node) {
    match node
    case Arr(items) => forall i :: 0 <= i < |items| ==> IsHeld(g, items[i])
    case Obj(fields) => DistinctKeys(fields) && forall i :: 0 <= i < |fields| ==> IsHeld(g, fields[i].1)
  }

  /** The graphs meant: every reference leads to a node, and no object has a key twice. */
  lemma WellFormedExactly(g: Graph)
    ensures WellFormed(g) <==>
              (forall a <- g :: match g[a]
                                case Arr(items) => forall v <- items :: v.Ref? ==> v.addr in g
                                case Obj(fields) =>
                                  && (forall f <- fields :: f.1.Ref? ==> f.1.addr in g)
                                  && forall i, j :: 0 <= i < j < |fields| ==> fields[i].0 != fields[j].0)
  {
  }

  function Get<T>(fields: seq<(string, T)>, key: string): Option<T> {
    if fields == [] then None
    else if fields[|fields| - 1].0 == key then Some(fields[|fields| - 1].1)
    else Get(fields[..|fields| - 1], key)
  }

  /** `sanitizedObject[key] = value`. Assigning to the name __proto__ sets no property. */
  function Put<T>(fields: seq<(string, T)>, key: string, value: T): seq<(string, T)> {
    if key == "__proto__" then fields else fields + [(key, value)]
  }

  function Child(g: Graph, v: Value, edge: Edge): Option<Value> {
    if v.Ref? && v.addr in g then
      match g[v.addr]
      case Arr(items) => if edge.At? && edge.index < |items| then Some(items[edge.index]) else None
      case Obj(fields) => if edge.Prop? then Get(fields, edge.key) else None
    else None
  }

  function Follow(g: Graph, v: Value, path: seq<Edge>): Option<Value>
    decreases |path|
  {
    if path == [] then Some(v)
    else
      match Child(g, v, path[0])
      case None => None
      case Some(next) => Follow(g, next, path[1..])
  }

  function TreeChild(t: Tree, edge: Edge): Option<Tree> {
    match t
    case Elements(items) => if edge.At? && edge.index < |items| then Some(items[edge.index]) else None
    case Record(fields) => if edge.Prop? then Get(fields, edge.key) else None
    case _ => None
  }

  function TreeFollow(t: Tree, path: seq<Edge>): Option<Tree>
    decreases |path|
  {
    if path == [] then Some(t)
    else
      match TreeChild(t, path[0])
      case None => None
      case Some(next) => TreeFollow(next, path[1..])
  }

  /******* What sanitising computes *******/

  function ReplaceAll(patterns: seq<Pattern>, value: string): string {
    if patterns == [] then value else patterns[|patterns| - 1](ReplaceAll(patterns[..|patterns| - 1], value))
  }

  function Clean(patterns: seq<Pattern>, value: string): string {
    Trim(ReplaceAll(patterns, value))
  }

  function Sanitize(patterns: seq<Pattern>, g: Graph, v: Value, depth: nat): Result<Tree>
    decreases if depth > MAX_DEPTH then 0 else MAX_DEPTH + 1 - depth, 0
  {
    if depth > MAX_DEPTH then Error("Maximum recursion depth exceeded during sanitization")
    else
      match v
      case Prim(id) => Ok(Leaf(id))
      case Str(text) => Ok(Cleaned(Clean(patterns, text)))
      case Ref(addr) =>
        if addr !in g then Ok(Leaf(0))
        else
          match g[addr]
          case Arr(items) => AsList(SanitizeItems(patterns, g, items, depth + 1))
          case Obj(fields) => AsRecord(SanitizeFields(patterns, g, fields, depth + 1))
  }

  function AsList(items: Result<seq<Tree>>): Result<Tree> {
    if items.Ok? then Ok(Elements(items.value)) else Error(items.message)
  }

  function AsRecord(fields: Result<seq<(string, Tree)>>): Result<Tree> {
    if fields.Ok? then Ok(Record(fields.value)) else Error(fields.message)
  }

  function SanitizeItems(patterns: seq<Pattern>, g: Graph, items: seq<Value>, depth: nat): Result<seq<Tree>>
    requires depth <= MAX_DEPTH + 1
    decreases MAX_DEPTH + 1 - depth, |items| + 1
  {
    if items == [] then Ok([])
    else
      match SanitizeItems(patterns, g, items[..|items| - 1], depth)
      case Error(e) => Error(e)
      case Ok(done) =>
        match Sanitize(patterns, g, items[|items| - 1], depth)
        case Error(e) => Error(e)
        case Ok(t) => Ok(done + [t])
  }

  function SanitizeFields(patterns: seq<Pattern>, g: Graph, fields: seq<(string, Value)>, depth: nat)
    : Result<seq<(string, Tree)>>
    requires depth <= MAX_DEPTH + 1
    decreases MAX_DEPTH + 1 - depth, |fields| + 1
  {
    if fields == [] then Ok([])
    else
      match SanitizeFields(patterns, g, fields[..|fields| - 1], depth)
      case Error(e) => Error(e)
      case Ok(done) =>
        match Sanitize(patterns, g, fields[|fields| - 1].1, depth)
        case Error(e) => Error(e)
        case Ok(t) => Ok(Put(done, fields[|fields| - 1].0, t))
  }

  /** The patterns are applied one after another, each to what the ones before it leave. */
  lemma {:induction false} ReplaceAllExactly(patterns: seq<Pattern>, more: seq<Pattern>, value: string)
    ensures ReplaceAll(patterns + more, value) == ReplaceAll(more, ReplaceAll(patterns, value))
    ensures forall p: Pattern :: ReplaceAll([p], value) == p(value)
  {
    if more == [] {
      assert patterns + more == patterns;
    } else {
      ReplaceAllExactly(patterns, more[..|more| - 1], value);
      assert (patterns + more)[..|patterns + more| - 1] == patterns + more[..|more| - 1];
    }
    forall p: Pattern
      ensures ReplaceAll([p], value) == p(value)
    {
      assert [p][..0] == [];
    }
  }

  /** What one pattern achieves, and neither the later ones nor trimming undo, the cleaned text
      has: say, that it holds no script tag. */
  lemma PatternAchieves(patterns: seq<Pattern>, k: nat, achieved: string -> bool, value: string)
    requires k < |patterns| && forall s :: achieved(patterns[k](s))
    requires forall j, s :: k < j < |patterns| && achieved(s) ==> achieved(patterns[j](s))
    requires forall s :: achieved(s) ==> achieved(Trim(s))
    ensures achieved(Clean(patterns, value))
  {
    StaysAchieved(patterns, k, achieved, value);
  }

  lemma {:induction false} StaysAchieved(patterns: seq<Pattern>, k: nat, achieved: string -> bool, value: string)
    requires k < |patterns| && forall s :: achieved(patterns[k](s))
    requires forall j, s :: k < j < |patterns| && achieved(s) ==> achieved(patterns[j](s))
    ensures achieved(ReplaceAll(patterns, value))
    decreases |patterns|
  {
    var n := |patterns| - 1;
    if k < n {
      forall j, s | k < j < n && achieved(s)
        ensures achieved(patterns[..n][j](s))
      {
        assert patterns[..n][j] == patterns[j];
      }
      StaysAchieved(patterns[..n], k, achieved, value);
    }
  }

  /******* The two functions of the source *******/

  method SanitizeValue(patterns: seq<Pattern>, value: string) returns (sanitized: string)
    ensures sanitized == Clean(patterns, value)
    ensures sanitized == "" || (!IsSpace(sanitized[0]) && !IsSpace(sanitized[|sanitized| - 1]))
    ensures |patterns| == 1 ==> sanitized == Trim(patterns[0](value))
  {
    sanitized := value;
    for i := 0 to |patterns|
      invariant sanitized == ReplaceAll(patterns[..i], value)
    {
      assert patterns[..i + 1][..i] == patterns[..i];
      sanitized := patterns[i](sanitized);
    }
    assert patterns[..|patterns|] == patterns;
    TrimLeftShape(sanitized);
    TrimRightShape(TrimLeft(sanitized));
    sanitized := Trim(sanitized);
  }

  /** It terminates on every graph: the depth, not the structure, ends the recursion. */
  method SanitizeInput(patterns: seq<Pattern>, g: Graph, input: Value, depth: nat) returns (result: Result<Tree>)
    requires WellFormed(g) && IsHeld(g, input)
    ensures result == Sanitize(patterns, g, input, depth)
    decreases if depth > MAX_DEPTH then 0 else MAX_DEPTH + 1 - depth, 1
  {
    hide Clean;
    if depth > MAX_DEPTH {
      return Error("Maximum recursion depth exceeded during sanitization");
    }
    if input.Prim? {
      return Ok(Leaf(input.id));
    }
    if input.Str? {
      var sanitized := SanitizeValue(patterns, input.text);
      return Ok(Cleaned(sanitized));
    }
    assert NodeOk(g, g[input.addr]);
    if g[input.addr].Arr? {
      result := SanitizeArray(patterns, g, g[input.addr].items, depth);
    } else {
      result := SanitizeObject(patterns, g, g[input.addr].fields, depth);
    }
  }

  method SanitizeArray(patterns: seq<Pattern>, g: Graph, items: seq<Value>, depth: nat) returns (result: Result<Tree>)
    requires WellFormed(g) && depth <= MAX_DEPTH && forall i :: 0 <= i < |items| ==> IsHeld(g, items[i])
    ensures result == AsList(SanitizeItems(patterns, g, items, depth + 1))
    decreases MAX_DEPTH + 1 - depth, 0
  {
    hide Sanitize;
    var mapped: seq<Tree> := [];
    for i := 0 to |items|
      invariant SanitizeItems(patterns, g, items[..i], depth + 1) == Ok(mapped)
    {
      var item := SanitizeInput(patterns, g, items[i], depth + 1);
      assert items[..i + 1][..i] == items[..i];
      if item.Error? {
        ItemsStayFailed(patterns, g, items, i + 1, depth + 1);
        return Error(item.message);
      }
      mapped := mapped + [item.value];
    }
    assert items[..|items|] == items;
    return Ok(Elements(mapped));
  }

  method SanitizeObject(patterns: seq<Pattern>, g: Graph, fields: seq<(string, Value)>, depth: nat)
    returns (result: Result<Tree>)
    requires WellFormed(g) && depth <= MAX_DEPTH && forall i :: 0 <= i < |fields| ==> IsHeld(g, fields[i].1)
    ensures result == AsRecord(SanitizeFields(patterns, g, fields, depth + 1))
    decreases MAX_DEPTH + 1 - depth, 0
  {
    hide Sanitize;
    var sanitizedObject: seq<(string, Tree)> := [];
    for i := 0 to |fields|
      invariant SanitizeFields(patterns, g, fields[..i], depth + 1) == Ok(sanitizedObject)
    {
      var value := SanitizeInput(patterns, g, fields[i].1, depth + 1);
      assert fields[..i + 1][..i] == fields[..i];
      if value.Error? {
        FieldsStayFailed(patterns, g, fields, i + 1, depth + 1);
        return Error(value.message);
      }
      sanitizedObject := Put(sanitizedObject, fields[i].0, value.value);
    }
    assert fields[..|fields|] == fields;
    return Ok(Record(sanitizedObject));
  }

  lemma {:induction false} ItemsStayFailed(patterns: seq<Pattern>, g: Graph, items: seq<Value>, i: nat, depth: nat)
    requires depth <= MAX_DEPTH + 1 && i <= |items| && SanitizeItems(patterns, g, items[..i], depth).Error?
    ensures SanitizeItems(patterns, g, items, depth) == SanitizeItems(patterns, g, items[..i], depth)
    decreases |items|
  {
    hide Sanitize;
    if i == |items| {
      assert items[..i] == items;
    } else {
      assert items[..|items| - 1][..i] == items[..i];
      ItemsStayFailed(patterns, g, items[..|items| - 1], i, depth);
    }
  }

  lemma {:induction false} FieldsStayFailed(patterns: seq<Pattern>, g: Graph, fields: seq<(string, Value)>,
                                                   i: nat, depth: nat)
    requires depth <= MAX_DEPTH + 1 && i <= |fields| && SanitizeFields(patterns, g, fields[..i], depth).Error?
    ensures SanitizeFields(patterns, g, fields, depth) == SanitizeFields(patterns, g, fields[..i], depth)
    decreases |fields|
  {
    hide Sanitize;
    if i == |fields| {
      assert fields[..i] == fields;
    } else {
      assert fields[..|fields| - 1][..i] == fields[..i];
      FieldsStayFailed(patterns, g, fields[..|fields| - 1], i, depth);
    }
  }

  /******* When it succeeds *******/

  /** No path from here leads deeper than the limit. */
  ghost predicate Shallow(g: Graph, v: Value, depth: nat) {
    forall path: seq<Edge> :: Follow(g, v, path).Some? ==> depth + |path| <= 10
  }

  ghost predicate ChildrenShallow(g: Graph, v: Value, depth: nat) {
    forall edge :: Child(g, v, edge).Some? ==> Shallow(g, Child(g, v, edge).value, depth)
  }

  ghost predicate ChildrenPass(patterns: seq<Pattern>, g: Graph, v: Value, depth: nat) {
    forall edge :: Child(g, v, edge).Some? ==> Sanitize(patterns, g, Child(g, v, edge).value, depth).Ok?
  }

  lemma ShallowByChildren(g: Graph, v: Value, depth: nat)
    ensures Shallow(g, v, depth) <==> depth <= MAX_DEPTH && ChildrenShallow(g, v, depth + 1)
  {
    hide Child;
    assert Follow(g, v, []) == Some(v);
    if Shallow(g, v, depth) {
      forall edge, path: seq<Edge> | Child(g, v, edge).Some? && Follow(g, Child(g, v, edge).value, path).Some?
        ensures depth + 1 + |path| <= MAX_DEPTH
      {
        assert ([edge] + path)[1..] == path;
        assert Follow(g, v, [edge] + path).Some?;
      }
    }
    if depth <= MAX_DEPTH && ChildrenShallow(g, v, depth + 1) {
      forall path: seq<Edge> | Follow(g, v, path).Some?
        ensures depth + |path| <= MAX_DEPTH
      {
        if path != [] {
          assert Shallow(g, Child(g, v, path[0]).value, depth + 1);
          assert Follow(g, Child(g, v, path[0]).value, path[1..]).Some?;
        }
      }
    }
  }

  lemma {:induction false} GetAt<T>(fields: seq<(string, T)>, i: nat)
    requires DistinctKeys(fields) && i < |fields|
    ensures Get(fields, fields[i].0) == Some(fields[i].1)
  {
    if i < |fields| - 1 {
      GetAt(fields[..|fields| - 1], i);
    }
  }

  lemma {:induction false} GetFrom<T>(fields: seq<(string, T)>, key: string) returns (i: nat)
    requires Get(fields, key).Some?
    ensures i < |fields| && fields[i] == (key, Get(fields, key).value)
  {
    i := |fields| - 1;
    if fields[i].0 != key {
      i := GetFrom(fields[..|fields| - 1], key);
    }
  }

  lemma {:induction false} ItemsPass(patterns: seq<Pattern>, g: Graph, items: seq<Value>, depth: nat)
    requires depth <= MAX_DEPTH + 1
    ensures var r := SanitizeItems(patterns, g, items, depth);
            && (r.Ok? <==> forall i :: 0 <= i < |items| ==> Sanitize(patterns, g, items[i], depth).Ok?)
            && (r.Ok? ==> |r.value| == |items|
                          && forall i :: 0 <= i < |items| ==> Sanitize(patterns, g, items[i], depth) == Ok(r.value[i]))
    decreases |items|
  {
    hide Sanitize;
    if items != [] {
      var n := |items| - 1;
      ItemsPass(patterns, g, items[..n], depth);
      assert forall i :: 0 <= i < n ==> items[..n][i] == items[i];
    }
  }

  lemma {:induction false} FieldsPass(patterns: seq<Pattern>, g: Graph, fields: seq<(string, Value)>, depth: nat)
    requires depth <= MAX_DEPTH + 1
    ensures SanitizeFields(patterns, g, fields, depth).Ok?
       <==> forall i :: 0 <= i < |fields| ==> Sanitize(patterns, g, fields[i].1, depth).Ok?
    decreases |fields|
  {
    hide Sanitize;
    if fields != [] {
      var n := |fields| - 1;
      FieldsPass(patterns, g, fields[..n], depth);
      assert forall i :: 0 <= i < n ==> fields[..n][i] == fields[i];
    }
  }

  /** An array or object within the limit passes exactly when all its children do. */
  lemma PassByChildren(patterns: seq<Pattern>, g: Graph, v: Value, depth: nat)
    requires WellFormed(g) && IsHeld(g, v) && v.Ref? && depth <= MAX_DEPTH
    ensures Sanitize(patterns, g, v, depth).Ok? <==> ChildrenPass(patterns, g, v, depth + 1)
  {
    assert NodeOk(g, g[v.addr]);
    match g[v.addr]
    case Arr(items) =>
      ArrayPasses(patterns, g, v, depth);
    case Obj(fields) =>
      ObjectPasses(patterns, g, v, depth);
  }

  lemma ArrayPasses(patterns: seq<Pattern>, g: Graph, v: Value, depth: nat)
    requires v.Ref? && v.addr in g && g[v.addr].Arr? && depth <= MAX_DEPTH
    ensures Sanitize(patterns, g, v, depth).Ok? <==> ChildrenPass(patterns, g, v, depth + 1)
  {
    var items := g[v.addr].items;
    ItemsPass(patterns, g, items, depth + 1);
    assert Sanitize(patterns, g, v, depth) == AsList(SanitizeItems(patterns, g, items, depth + 1));
    hide Sanitize;
    forall i | 0 <= i < |items|
      ensures Child(g, v, At(i)) == Some(items[i])
    {
    }
  }

  lemma ObjectPasses(patterns: seq<Pattern>, g: Graph, v: Value, depth: nat)
    requires v.Ref? && v.addr in g && g[v.addr].Obj? && DistinctKeys(g[v.addr].fields) && depth <= MAX_DEPTH
    ensures Sanitize(patterns, g, v, depth).Ok? <==> ChildrenPass(patterns, g, v, depth + 1)
  {
    var fields := g[v.addr].fields;
    FieldsPass(patterns, g, fields, depth + 1);
    assert Sanitize(patterns, g, v, depth) == AsRecord(SanitizeFields(patterns, g, fields, depth + 1));
    hide Sanitize, Get;
    forall i | 0 <= i < |fields|
      ensures Child(g, v, Prop(fields[i].0)) == Some(fields[i].1)
    {
      GetAt(fields, i);
    }
    forall edge | Child(g, v, edge).Some?
      ensures exists i :: 0 <= i < |fields| && Child(g, v, edge) == Some(fields[i].1)
    {
      var i := GetFrom(fields, edge.key);
    }
  }

  /** It succeeds exactly when no path from the root, through whatever is shared or cyclic,
      has more than ten edges. */
  lemma {:induction false} SucceedsExactly(patterns: seq<Pattern>, g: Graph, v: Value, depth: nat)
    requires WellFormed(g) && IsHeld(g, v)
    ensures Sanitize(patterns, g, v, depth).Ok? <==> Shallow(g, v, depth)
    decreases if depth > MAX_DEPTH then 0 else MAX_DEPTH + 1 - depth, 1
  {
    hide Shallow;
    ShallowByChildren(g, v, depth);
    if depth <= MAX_DEPTH && v.Ref? {
      hide Sanitize, Child;
      PassByChildren(patterns, g, v, depth);
      ChildrenAgree(patterns, g, v, depth);
    } else {
      hide Follow;
    }
  }

  lemma {:induction false} ChildrenAgree(patterns: seq<Pattern>, g: Graph, v: Value, depth: nat)
    requires WellFormed(g) && IsHeld(g, v) && depth <= MAX_DEPTH
    ensures ChildrenPass(patterns, g, v, depth + 1) <==> ChildrenShallow(g, v, depth + 1)
    decreases MAX_DEPTH + 1 - depth, 0
  {
    hide Sanitize, Shallow, Child;
    forall edge | Child(g, v, edge).Some?
      ensures var c := Child(g, v, edge).value;
              Sanitize(patterns, g, c, depth + 1).Ok? <==> Shallow(g, c, depth + 1)
    {
      ChildHeld(g, v, edge);
      SucceedsExactly(patterns, g, Child(g, v, edge).value, depth + 1);
    }
  }

  lemma ChildHeld(g: Graph, v: Value, edge: Edge)
    requires WellFormed(g) && Child(g, v, edge).Some?
    ensures IsHeld(g, Child(g, v, edge).value)
  {
    assert NodeOk(g, g[v.addr]);
    if g[v.addr].Obj? {
      var i := GetFrom(g[v.addr].fields, edge.key);
    }
  }

  /******* Cycles *******/

  function Repeat(path: seq<Edge>, n: nat): seq<Edge> {
    if n == 0 then [] else path + Repeat(path, n - 1)
  }

  lemma {:induction false} FollowOn(g: Graph, v: Value, path: seq<Edge>, more: seq<Edge>)
    requires Follow(g, v, path).Some?
    ensures Follow(g, v, path + more) == Follow(g, Follow(g, v, path).value, more)
    decreases |path|
  {
    hide Child;
    if path == [] {
      assert path + more == more;
    } else {
      assert (path + more)[1..] == path[1..] + more;
      FollowOn(g, Child(g, v, path[0]).value, path[1..], more);
    }
  }

  lemma {:induction false} AroundAgain(g: Graph, v: Value, cycle: seq<Edge>, n: nat)
    requires Follow(g, v, cycle) == Some(v) && cycle != []
    ensures Follow(g, v, Repeat(cycle, n)) == Some(v) && |Repeat(cycle, n)| >= n
  {
    hide Child;
    if n > 0 {
      AroundAgain(g, v, cycle, n - 1);
      FollowOn(g, v, cycle, Repeat(cycle, n - 1));
    }
  }

  /** Every cycle that can be reached makes it fail. */
  lemma CyclesRejected(patterns: seq<Pattern>, g: Graph, v: Value, depth: nat, prefix: seq<Edge>, cycle: seq<Edge>)
    requires WellFormed(g) && IsHeld(g, v) && cycle != []
    requires Follow(g, v, prefix).Some? && Follow(g, Follow(g, v, prefix).value, cycle) == Follow(g, v, prefix)
    ensures Sanitize(patterns, g, v, depth).Error?
  {
    hide Child, Sanitize, Follow;
    AroundAgain(g, Follow(g, v, prefix).value, cycle, MAX_DEPTH + 1);
    FollowOn(g, v, prefix, Repeat(cycle, MAX_DEPTH + 1));
    SucceedsExactly(patterns, g, v, depth);
  }

  /******* What it returns *******/

  function OwnKeys<T>(fields: seq<(string, T)>): seq<string> {
    if fields == [] then []
    else
      var key := fields[|fields| - 1].0;
      OwnKeys(fields[..|fields| - 1]) + if key == "__proto__" then [] else [key]
  }

  function KeysOf<T>(fields: seq<(string, T)>): seq<string> {
    if fields == [] then [] else KeysOf(fields[..|fields| - 1]) + [fields[|fields| - 1].0]
  }

  /** The same shape at this point: equal leaves, cleaned text, arrays of equal length,
      objects with the same keys in the same order, except the key __proto__. */
  ghost predicate SameHere(patterns: seq<Pattern>, g: Graph, v: Value, t: Tree) {
    match v
    case Prim(id) => t == Leaf(id)
    case Str(text) => t == Cleaned(Clean(patterns, text))
    case Ref(addr) =>
      addr in g &&
      match g[addr]
      case Arr(items) => t.Elements? && |t.items| == |items|
      case Obj(fields) => t.Record? && KeysOf(t.fields) == OwnKeys(fields)
  }

  /** Point by point: equal leaves, cleaned text, equally long arrays, and the keys in order. */
  lemma SameHereExactly(patterns: seq<Pattern>, g: Graph, v: Value, t: Tree)
    ensures v.Prim? ==> (SameHere(patterns, g, v, t) <==> t == Leaf(v.id))
    ensures v.Str? ==> (SameHere(patterns, g, v, t) <==> t == Cleaned(Trim(ReplaceAll(patterns, v.text))))
    ensures v.Ref? && v.addr in g && g[v.addr].Arr? ==>
              (SameHere(patterns, g, v, t) <==> t.Elements? && |t.items| == |g[v.addr].items|)
    ensures v.Ref? && v.addr in g && g[v.addr].Obj? ==>
              (SameHere(patterns, g, v, t) <==>
                 t.Record? && KeysOf(t.fields) == OwnKeys(g[v.addr].fields))
  {
  }

  lemma KeysOfSnoc<T>(fields: seq<(string, T)>, key: string, value: T)
    ensures KeysOf(fields + [(key, value)]) == KeysOf(fields) + [key]
    ensures OwnKeys(fields + [(key, value)]) == if key == "__proto__" then OwnKeys(fields) else OwnKeys(fields) + [key]
  {
    assert (fields + [(key, value)])[..|fields|] == fields;
  }

  lemma {:induction false} FieldsAt(patterns: seq<Pattern>, g: Graph, fields: seq<(string, Value)>,
                                           depth: nat, key: string)
    requires depth <= MAX_DEPTH + 1 && SanitizeFields(patterns, g, fields, depth).Ok?
    ensures var r := SanitizeFields(patterns, g, fields, depth).value;
            && KeysOf(r) == OwnKeys(fields)
            && (if key == "__proto__" || Get(fields, key).None? then Get(r, key).None?
                else Get(r, key).Some? && Sanitize(patterns, g, Get(fields, key).value, depth) == Ok(Get(r, key).value))
    decreases |fields|
  {
    hide Sanitize;
    if fields != [] {
      var n := |fields| - 1;
      FieldsAt(patterns, g, fields[..n], depth, key);
      var done := SanitizeFields(patterns, g, fields[..n], depth).value;
      var last := Sanitize(patterns, g, fields[n].1, depth).value;
      assert (done + [(fields[n].0, last)])[..|done|] == done;
    }
  }

  /** One edge down, input and result still correspond. */
  lemma EdgeKept(patterns: seq<Pattern>, g: Graph, v: Value, depth: nat, edge: Edge)
    requires WellFormed(g) && IsHeld(g, v) && Sanitize(patterns, g, v, depth).Ok?
    ensures var t := Sanitize(patterns, g, v, depth).value;
            && SameHere(patterns, g, v, t)
            && (if edge == Prop("__proto__") || Child(g, v, edge).None? then TreeChild(t, edge).None?
                else TreeChild(t, edge).Some?
                     && Sanitize(patterns, g, Child(g, v, edge).value, depth + 1) == Ok(TreeChild(t, edge).value))
  {
    hide Clean;
    if v.Ref? {
      match g[v.addr]
      case Arr(items) => ItemsPass(patterns, g, items, depth + 1);
      case Obj(fields) => FieldsAt(patterns, g, fields, depth + 1, if edge.Prop? then edge.key else "");
    }
  }

  /** On success every path that avoids __proto__ leads in the result exactly where it leads
      in the input, to the same shape; a path through __proto__ leads nowhere. */
  lemma {:induction false} PathsKept(patterns: seq<Pattern>, g: Graph, v: Value, depth: nat, path: seq<Edge>)
    requires WellFormed(g) && IsHeld(g, v) && Sanitize(patterns, g, v, depth).Ok?
    ensures var there := TreeFollow(Sanitize(patterns, g, v, depth).value, path);
            if Prop("__proto__") in path || Follow(g, v, path).None? then there.None?
            else there.Some? && SameHere(patterns, g, Follow(g, v, path).value, there.value)
    decreases |path|
  {
    hide Sanitize, SameHere, Child, TreeChild;
    if path == [] {
      EdgeKept(patterns, g, v, depth, Prop("__proto__"));
    } else {
      EdgeKept(patterns, g, v, depth, path[0]);
      if path[0] != Prop("__proto__") && Child(g, v, path[0]).Some? {
        ChildHeld(g, v, path[0]);
        assert path == [path[0]] + path[1..];
        PathsKept(patterns, g, Child(g, v, path[0]).value, depth + 1, path[1..]);
      }
    }
  }

  /******* The middleware *******/

  /** A part of a request: missing or falsy, as parsed, or already replaced. */
  datatype Part = Falsy | Given(value: Value) | Replaced(tree: Tree)

  class Request {
    const graph: Graph
    var body: Part
    var query: Part
    var params: Part

    constructor (graph: Graph, body: Part, query: Part, params: Part)
      ensures this.graph == graph && this.body == body && this.query == query && this.params == params
    {
      this.graph, this.body, this.query, this.params := graph, body, query, params;
    }
  }

  ghost predicate Fits(g: Graph, part: Part) {
    part.Given? ==> Shallow(g, part.value, 0)
  }

  function After(patterns: seq<Pattern>, g: Graph, part: Part): Part {
    if part.Given? && Sanitize(patterns, g, part.value, 0).Ok?
    then Replaced(Sanitize(patterns, g, part.value, 0).value) else part
  }

  /** Body, query and parameters are replaced in this order. The request goes on exactly when
      none of the three has a path of more than ten edges; otherwise it is answered with
      status 400, and the parts before the offending one stay replaced. */
  method SanitizeRequest(patterns: seq<Pattern>, req: Request) returns (status: Option<nat>)
    requires WellFormed(req.graph)
    requires forall part :: part in {req.body, req.query, req.params} && part.Given? ==> IsHeld(req.graph, part.value)
    modifies req
    ensures var g := req.graph;
            && (status.None? <==> Fits(g, old(req.body)) && Fits(g, old(req.query)) && Fits(g, old(req.params)))
            && (status.Some? ==> status.value == 400)
            && req.body == After(patterns, g, old(req.body))
            && req.query == (if Fits(g, old(req.body)) then After(patterns, g, old(req.query)) else old(req.query))
            && req.params == (if Fits(g, old(req.body)) && Fits(g, old(req.query))
                              then After(patterns, g, old(req.params)) else old(req.params))
  {
    hide Sanitize, Shallow, WellFormed, IsHeld;
    var ok;
    ok, req.body := SanitizePart(patterns, req.graph, req.body);
    if !ok {
      return Some(400);
    }
    ok, req.query := SanitizePart(patterns, req.graph, req.query);
    if !ok {
      return Some(400);
    }
    ok, req.params := SanitizePart(patterns, req.graph, req.params);
    return if ok then None else Some(400);
  }

  method SanitizePart(patterns: seq<Pattern>, g: Graph, part: Part) returns (ok: bool, after: Part)
    requires WellFormed(g) && (part.Given? ==> IsHeld(g, part.value))
    ensures ok <==> Fits(g, part)
    ensures after == After(patterns, g, part)
  {
    hide Sanitize, Shallow;
    if part.Given? {
      SucceedsExactly(patterns, g, part.value, 0);
      var result := SanitizeInput(patterns, g, part.value, 0);
      return result.Ok?, if result.Ok? then Replaced(result.value) else part;
    }
    return true, part;
  }
}
