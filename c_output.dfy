/** The C header/source outputer of bento (bento/outputs/c.py): the C text
    of argument and function declarations, the declarations of the
    prologue, and the normalised, de-duplicated, sorted include list. */
module COutput {
  import opened Common
  import opened LexOrder

  predicate StartsWith(s: string, p: string) {
    |p| <= |s| && s[..|p|] == p
  }

  predicate EndsWith(s: string, p: string) {
    |p| <= |s| && s[|s| - |p|..] == p
  }

  /** An argument or return value: its primitive type (`u8`, `i32`,
      `err32`, `usize`, `f64`, ...), qualifiers, and declared name. */
  datatype Arg = Arg(prim: string, isConst: bool, isPtr: bool, name: Option<string>)

  /** A function as the outputer sees it; `argNames` is what `argnames()`
      gives for `args`. */
  datatype Fn = Fn(alias: string, args: seq<Arg>, argNames: seq<string>, rets: seq<Arg>,
                   noReturn: bool, doc: Option<string>)

  //// repr_arg ////

  /** `intN_t` / `uintN_t` from a family and the width digits. */
  function Sized(family: string, width: string): (t: string)
    requires |family| >= 3
    ensures |t| >= 3 && t[0] == family[0] && t[1] == family[1] && t[|t| - 1] == 't'
    ensures ' ' !in family && ' ' !in width ==> ' ' !in t
  {
    family + width + "_t"
  }

  /** The C type `repr_arg` writes for a primitive, tried in its order. */
  function CType(prim: string, isPtr: bool): (t: string)
    ensures |t| >= 3 && t[0] != '_' && t[|t| - 1] != '*'
    ensures t[0] == 'c' ==> t == "char"
    ensures t == "void" ==> prim == "u8" && isPtr
    ensures ' ' !in prim ==> ' ' !in t
  {
    if prim == "u8" && isPtr then "void"
    else if prim == "i8" && isPtr then "char"
    else if prim == "bool" then "bool"
    else if prim == "err32" then "int32_t"
    else if prim == "err64" then "int64_t"
    else if prim == "errsize" then "ssize_t"
    else if StartsWith(prim, "err") then "int"
    else if prim == "isize" then "ssize_t"
    else if prim == "usize" then "size_t"
    else if StartsWith(prim, "i") then Sized("int", prim[1..])
    else if StartsWith(prim, "u") then Sized("uint", prim[1..])
    else if prim == "f32" then "float"
    else if prim == "f64" then "double"
    else "???"
  }

  /** The byte pointers, which become `void *` and `char *`. */
  const PointerTypes: map<string, string> := map["u8" := "void", "i8" := "char"]

  /** The primitives with a C type of their own. */
  const ExactTypes: map<string, string> := map[
    "bool" := "bool", "err32" := "int32_t", "err64" := "int64_t", "errsize" := "ssize_t",
    "isize" := "ssize_t", "usize" := "size_t", "f32" := "float", "f64" := "double"]

  /** The type table as a lookup: byte pointers, then named primitives,
      then the `err*`, `iN` and `uN` families, then unknown. */
  function CTypeTable(prim: string, isPtr: bool): string {
    if isPtr && prim in PointerTypes then PointerTypes[prim]
    else if prim in ExactTypes then ExactTypes[prim]
    else if StartsWith(prim, "err") then "int"
    else if StartsWith(prim, "i") then "int" + prim[1..] + "_t"
    else if StartsWith(prim, "u") then "uint" + prim[1..] + "_t"
    else "???"
  }

  /** `repr_arg`'s chain of conditionals is the table lookup: the named
      primitives take precedence over the family rules. */
  lemma CTypeIsTable(prim: string, isPtr: bool)
    ensures CType(prim, isPtr) == CTypeTable(prim, isPtr)
  {
    if isPtr && prim in PointerTypes {
      PointerKeys(prim);
    } else if prim in ExactTypes {
      ExactKeys(prim);
    } else {
      ExactKeys(prim);
      if StartsWith(prim, "err") {
        assert prim[0] == 'e';
      } else if StartsWith(prim, "i") {
        assert prim[0] == 'i';
      } else if StartsWith(prim, "u") {
        assert prim[0] == 'u';
      }
    }
  }

  lemma PointerKeys(prim: string)
    ensures prim in PointerTypes <==> prim == "u8" || prim == "i8"
    ensures prim == "u8" ==> PointerTypes[prim] == "void"
    ensures prim == "i8" ==> PointerTypes[prim] == "char"
  {
  }

  lemma ExactKeys(prim: string)
    ensures prim in ExactTypes <==> prim in {"bool", "err32", "err64", "errsize", "isize", "usize", "f32", "f64"}
    ensures prim in ExactTypes ==> ExactTypes[prim] == CType(prim, false)
  {
    if prim == "isize" {
      NotPrefix(prim, "err", 0);
    } else if prim == "usize" {
      NotPrefix(prim, "err", 0);
      NotPrefix(prim, "i", 0);
    } else if prim == "f32" || prim == "f64" {
      NotPrefix(prim, "err", 0);
      NotPrefix(prim, "i", 0);
      NotPrefix(prim, "u", 0);
    }
  }

  lemma NotPrefix(s: string, p: string, k: nat)
    requires k < |s| && k < |p| && s[k] != p[k]
    ensures !StartsWith(s, p)
  {
    if |p| <= |s| {
      assert s[..|p|][k] != p[k];
    }
  }

  /** The declared name a call of `repr_arg` writes; none and "" write none. */
  function NameText(arg: Arg, name: Option<string>): string {
    var chosen := if name.Some? then name else arg.name;
    if chosen.Some? then chosen.value else ""
  }

  /** Everything `repr_arg` writes before the name. */
  function Declarator(arg: Arg, n: string): string {
    (if arg.isConst then "const " else "") + CType(arg.prim, arg.isPtr)
    + (if n != "" then " " else "") + (if arg.isPtr then "*" else "")
  }

  /** `HOutput.repr_arg` */
  function ReprArg(arg: Arg, name: Option<string>): string {
    var n := NameText(arg, name);
    Declarator(arg, n) + n
  }

  /** "const " leads `repr_arg`'s text exactly for const arguments. */
  lemma ReprArgConst(arg: Arg, name: Option<string>)
    ensures StartsWith(ReprArg(arg, name), "const ") <==> arg.isConst
  {
    var r := ReprArg(arg, name);
    var t := CType(arg.prim, arg.isPtr);
    var c := "const ";
    if arg.isConst {
      forall i | 0 <= i < |c| ensures r[i] == c[i] { }
      PrefixByIndex(r, c);
    } else {
      assert r[0] == t[0] && r[1] == t[1];
      if t[0] != 'c' {
        NotPrefix(r, c, 0);
      } else {
        assert t == "char";
        NotPrefix(r, c, 1);
      }
    }
  }

  lemma PrefixByIndex(s: string, p: string)
    requires |p| <= |s| && forall i :: 0 <= i < |p| ==> s[i] == p[i]
    ensures StartsWith(s, p)
  {
  }

  /** The name comes last; right before it stands a `*` exactly for
      pointers, and a space separates it from the type. */
  lemma ReprArgTail(arg: Arg, name: Option<string>)
    ensures var r, n := ReprArg(arg, name), NameText(arg, name);
      && EndsWith(r, n) && |r| > |n|
      && (r[|r| - |n| - 1] == '*' <==> arg.isPtr)
      && (n != "" ==> r[|r| - |n| - (if arg.isPtr then 1 else 0) - 1] == ' ')
  {
    var n := NameText(arg, name);
    var d := Declarator(arg, n);
    var t := CType(arg.prim, arg.isPtr);
    var r := ReprArg(arg, name);
    assert r[|r| - |n|..] == n;
    if !arg.isPtr && n == "" {
      assert d[|d| - 1] == t[|t| - 1];
    }
  }

  /** Without a name, const or space in the primitive there is no space. */
  lemma ReprArgNoSpace(arg: Arg, name: Option<string>)
    requires NameText(arg, name) == "" && !arg.isConst && ' ' !in arg.prim
    ensures ' ' !in ReprArg(arg, name)
  {
    assert ReprArg(arg, name) == CType(arg.prim, arg.isPtr) + (if arg.isPtr then "*" else "");
  }

  /** No argument is written as a bare "void": `void` is only a `u8`
      pointer, and that carries its `*`. */
  lemma ReprArgNotVoid(arg: Arg, name: Option<string>)
    ensures ReprArg(arg, name) != "void"
  {
    ReprArgTail(arg, name);
    ReprArgConst(arg, name);
  }

  /** The head of `repr_arg`'s text is never an underscore. */
  lemma ReprArgHead(arg: Arg, name: Option<string>)
    ensures |ReprArg(arg, name)| > 0 && ReprArg(arg, name)[0] != '_'
  {
    var t := CType(arg.prim, arg.isPtr);
    assert ReprArg(arg, name)[0] == (if arg.isConst then 'c' else t[0]);
  }

  //// repr_fn / repr_fnptr ////

  const NoReturnAttr: string := "__attribute__((noreturn))"

  /** Attributes, each followed by a newline when it starts with `__` and by
      a space otherwise. */
  function AttrText(attrs: seq<string>): string {
    if attrs == [] then ""
    else attrs[0] + (if StartsWith(attrs[0], "__") then "\n" else " ") + AttrText(attrs[1..])
  }

  /** noreturn is written only for noreturn functions declared under a name
      without `*`. */
  function NoReturnAttrs(fn: Fn, name: Option<string>): seq<string> {
    if fn.noReturn && (name.None? || '*' !in name.value) then [NoReturnAttr] else []
  }

  /** `zip(fn.args, fn.argnames())` rendered by `repr_arg`. */
  function Params(args: seq<Arg>, names: seq<string>): (ps: seq<string>)
    ensures |ps| == if |args| < |names| then |args| else |names|
    ensures forall i :: 0 <= i < |ps| ==> ps[i] == ReprArg(args[i], Some(names[i]))
  {
    if args == [] || names == [] then []
    else [ReprArg(args[0], Some(names[0]))] + Params(args[1..], names[1..])
  }

  /** `sep.join(xs)` */
  function Join(xs: seq<string>, sep: string): string {
    if |xs| == 0 then ""
    else if |xs| == 1 then xs[0]
    else xs[0] + sep + Join(xs[1..], sep)
  }

  /** Where `xs[i]` starts in `Join(xs, sep)`. */
  function JoinOffset(xs: seq<string>, sep: string, i: nat): nat
    requires i < |xs|
  {
    if i == 0 then 0 else |xs[0]| + |sep| + JoinOffset(xs[1..], sep, i - 1)
  }

  /** `x` stands in `s` at offset `o`. */
  predicate SliceAt(s: string, o: nat, x: string) {
    o + |x| <= |s| && s[o..o + |x|] == x
  }

  /** `Join` keeps its elements in order: each stands at its offset, and a
      separator follows every element but the last. */
  lemma {:induction false} JoinInOrder(xs: seq<string>, sep: string, i: nat)
    requires i < |xs|
    ensures SliceAt(Join(xs, sep), JoinOffset(xs, sep, i), xs[i])
    ensures i + 1 < |xs| ==> SliceAt(Join(xs, sep), JoinOffset(xs, sep, i) + |xs[i]|, sep)
    decreases i
  {
    if i == 0 {
      JoinHead(xs, sep);
    } else {
      var head, rest := xs[0] + sep, Join(xs[1..], sep);
      assert Join(xs, sep) == head + rest;
      JoinInOrder(xs[1..], sep, i - 1);
      var o := JoinOffset(xs[1..], sep, i - 1);
      assert xs[1..][i - 1] == xs[i];
      assert JoinOffset(xs, sep, i) == |head| + o;
      SliceAtShift(head, rest, o, xs[i]);
      assert SliceAt(Join(xs, sep), JoinOffset(xs, sep, i), xs[i]);
      if i + 1 < |xs| {
        SliceAtShift(head, rest, o + |xs[i]|, sep);
        assert SliceAt(Join(xs, sep), JoinOffset(xs, sep, i) + |xs[i]|, sep);
      }
    }
  }

  /** The first element leads the joined text, followed by a separator
      when there are more. */
  lemma JoinHead(xs: seq<string>, sep: string)
    requires |xs| > 0
    ensures SliceAt(Join(xs, sep), 0, xs[0])
    ensures |xs| > 1 ==> SliceAt(Join(xs, sep), |xs[0]|, sep)
  {
    if |xs| > 1 {
      var rest := Join(xs[1..], sep);
      assert Join(xs, sep) == xs[0] + (sep + rest);
      SliceAtShift(xs[0], sep + rest, 0, sep);
      assert (sep + rest)[0..|sep|] == sep;
    }
  }

  /** What stands in the right part of a concatenation stands in the
      whole, shifted by the left part. */
  lemma SliceAtShift(a: string, b: string, o: nat, x: string)
    requires SliceAt(b, o, x)
    ensures SliceAt(a + b, |a| + o, x)
  {
    assert (a + b)[|a| + o..|a| + o + |x|] == b[o..o + |x|];
  }

  /** The parameter list: "void" without arguments. */
  function ParamList(fn: Fn): string {
    if fn.args != [] then Join(Params(fn.args, fn.argNames), ", ") else "void"
  }

  /** The return type with its trailing space: "void " without returns. */
  function RetType(fn: Fn): string {
    if fn.rets != [] then ReprArg(fn.rets[0], Some("")) + " " else "void "
  }

  /** The declaration without its attributes. */
  function Signature(fn: Fn, name: Option<string>): string {
    RetType(fn) + (if name.Some? then name.value else fn.alias) + "(" + ParamList(fn) + ")"
  }

  /** `HOutput.repr_fn` */
  function ReprFn(fn: Fn, name: Option<string>, attrs: seq<string>): string {
    AttrText(NoReturnAttrs(fn, name) + attrs) + Signature(fn, name)
  }

  /** `HOutput.repr_fnptr` */
  function ReprFnPtr(fn: Fn, name: Option<string>, attrs: seq<string>): string {
    ReprFn(fn, Some("(*" + (if name.Some? then name.value else fn.alias) + ")"), attrs)
  }

  /** The return type is "void " exactly when there is no return value. */
  lemma RetTypeVoid(fn: Fn)
    ensures RetType(fn) == "void " <==> fn.rets == []
  {
    if fn.rets != [] {
      ReprArgNotVoid(fn.rets[0], Some(""));
      assert RetType(fn)[..|RetType(fn)| - 1] == ReprArg(fn.rets[0], Some(""));
    }
  }

  /** The parameter list is "void" exactly when there are no arguments. */
  lemma ParamListVoid(fn: Fn)
    ensures ParamList(fn) == "void" <==> fn.args == []
  {
    if fn.args != [] {
      var ps := Params(fn.args, fn.argNames);
      if |ps| == 1 {
        ReprArgNotVoid(fn.args[0], Some(fn.argNames[0]));
      } else if |ps| > 1 {
        var j := Join(ps, ", ");
        assert j == ps[0] + ", " + Join(ps[1..], ", ");
        assert j[|ps[0]|] == ',';
      }
    }
  }

  /** Without attributes `repr_fn`'s text starts with the return type,
      whose first character is never an underscore. */
  lemma ReprFnBareHead(fn: Fn, name: Option<string>)
    requires NoReturnAttrs(fn, name) == []
    ensures |ReprFn(fn, name, [])| > 0 && ReprFn(fn, name, [])[0] != '_'
  {
    var s := Signature(fn, name);
    assert AttrText([]) == "";
    assert ReprFn(fn, name, []) == s;
    if fn.rets != [] {
      ReprArgHead(fn.rets[0], Some(""));
    }
    assert s[0] == RetType(fn)[0];
  }

  /** With the noreturn attribute alone, `repr_fn`'s text is the attribute
      line followed by the signature. */
  lemma ReprFnAttrHead(fn: Fn, name: Option<string>)
    requires NoReturnAttrs(fn, name) == [NoReturnAttr]
    ensures ReprFn(fn, name, []) == NoReturnAttr + "\n" + Signature(fn, name)
  {
    assert [NoReturnAttr] + [] == [NoReturnAttr];
    AttrTextSingle(NoReturnAttr);
    NoReturnAttrLine();
  }

  lemma AttrTextSingle(a: string)
    ensures AttrText([a]) == a + (if StartsWith(a, "__") then "\n" else " ")
  {
    assert AttrText([a][1..]) == "";
  }

  /** The noreturn attribute is written on a line of its own. */
  lemma NoReturnAttrLine()
    ensures StartsWith(NoReturnAttr, "__")
  {
    assert NoReturnAttr[..2] == "__";
  }

  /** The noreturn attribute leads `repr_fn`'s text (with no other
      attributes) exactly for noreturn functions whose name has no `*`. */
  lemma ReprFnNoReturn(fn: Fn, name: Option<string>)
    ensures StartsWith(ReprFn(fn, name, []), NoReturnAttr + "\n")
        <==> fn.noReturn && (name.None? || '*' !in name.value)
  {
    var r := ReprFn(fn, name, []);
    var attr := NoReturnAttr + "\n";
    assert attr[0] == '_';
    if NoReturnAttrs(fn, name) == [] {
      ReprFnBareHead(fn, name);
      NotPrefix(r, attr, 0);
    } else {
      ReprFnAttrHead(fn, name);
      assert r[..|attr|] == attr;
    }
  }

  /** A function pointer never carries noreturn: its declarator has a `*`. */
  lemma ReprFnPtrNoReturn(fn: Fn, name: Option<string>, attrs: seq<string>)
    ensures ReprFnPtr(fn, name, attrs) == ReprFnPtr(fn.(noReturn := false), name, attrs)
    ensures !StartsWith(ReprFnPtr(fn, name, []), NoReturnAttr + "\n")
  {
    var n := "(*" + (if name.Some? then name.value else fn.alias) + ")";
    assert n[1] == '*';
    ReprFnNoReturn(fn, Some(n));
  }

  //// build_prologue ////

  /** The four runtime hooks declared for every sub-box. */
  datatype HookKind = InitHook | ClobberHook | PushHook | PopHook

  /** One entry of `decls`, kept as what it declares (the outputer stores
      a format string with its attributes and renders it at the end). */
  datatype Decl =
    | Marker(title: string)
    | Hook(kind: HookKind, box: string)
    | FnDecl(fn: Fn, isExport: bool)
    | IncludeLines(incs: seq<string>)

  /** An import or export of a box and the box it belongs to. */
  datatype Link = Link(fn: Fn, source: string)

  /** What the prologue needs of a box: its name, links and sub-boxes. */
  datatype BoxDesc = BoxDesc(name: string, imports: seq<Link>, exports: seq<Link>, subboxes: seq<string>)

  /** The hook declarations of one sub-box, in order. */
  function BoxHooks(b: string): (ds: seq<Decl>)
    ensures |ds| == 4
  {
    [Hook(InitHook, b), Hook(ClobberHook, b), Hook(PushHook, b), Hook(PopHook, b)]
  }

  /** The hooks of every sub-box in turn. */
  function AllHooks(bs: seq<string>): (ds: seq<Decl>)
    ensures |ds| == 4 * |bs|
  {
    if bs == [] then [] else AllHooks(bs[..|bs| - 1]) + BoxHooks(bs[|bs| - 1])
  }

  /** A marker followed by `ds`, or nothing when `ds` is empty. */
  function Titled(title: string, ds: seq<Decl>): seq<Decl> {
    if ds == [] then [] else [Marker(title)] + ds
  }

  const HooksTitle: string := "box hooks"
  const ImportsTitle: string := "box imports"
  const ExportsTitle: string := "box exports"

  /** The hook section of the prologue. */
  function HookDecls(bs: seq<string>): seq<Decl> {
    Titled(HooksTitle, AllHooks(bs))
  }

  lemma {:induction false} AllHooksAt(bs: seq<string>, k: nat, j: nat)
    requires k < |bs| && j < 4
    ensures AllHooks(bs)[4 * k + j] == BoxHooks(bs[k])[j]
    decreases |bs|
  {
    var last := |bs| - 1;
    if k < last {
      AllHooksAt(bs[..last], k, j);
      assert bs[..last][k] == bs[k];
    }
  }

  /** The hook section: one marker, present only when there are sub-boxes,
      then for each sub-box in order its init, clobber, push and pop. */
  lemma HookDeclsLayout(bs: seq<string>, k: nat, j: nat)
    requires k < |bs| && j < 4
    ensures |HookDecls(bs)| == 1 + 4 * |bs|
    ensures HookDecls(bs)[0] == Marker(HooksTitle)
    ensures HookDecls(bs)[1 + 4 * k + j] == BoxHooks(bs[k])[j]
  {
    AllHooksAt(bs, k, j);
  }

  /** The marker is written exactly when there are sub-boxes. */
  lemma NoHooksNoMarker(bs: seq<string>)
    ensures HookDecls(bs) == [] <==> bs == []
  {
  }

  /** The declarations of the links that belong to `box`, in order. */
  function OwnDecls(links: seq<Link>, box: string, isExport: bool): seq<Decl> {
    if links == [] then []
    else
      var l := links[|links| - 1];
      OwnDecls(links[..|links| - 1], box, isExport) + (if l.source == box then [FnDecl(l.fn, isExport)] else [])
  }

  /** Exactly the box's own links are declared, each as often as it is
      listed, and nothing else. */
  lemma {:induction false} OwnDeclsMembers(links: seq<Link>, box: string, isExport: bool, d: Decl)
    ensures |OwnDecls(links, box, isExport)| <= |links|
    ensures d in OwnDecls(links, box, isExport) <==>
      exists i :: 0 <= i < |links| && links[i].source == box && d == FnDecl(links[i].fn, isExport)
    decreases |links|
  {
    if links != [] {
      var init := links[..|links| - 1];
      OwnDeclsMembers(init, box, isExport, d);
      assert forall i :: 0 <= i < |init| ==> init[i] == links[i];
      if d in OwnDecls(links, box, isExport) && d !in OwnDecls(init, box, isExport) {
        assert links[|links| - 1].source == box && d == FnDecl(links[|links| - 1].fn, isExport);
      }
    }
  }

  /** Appending a declaration after the marker-or-not prefix. */
  lemma TitledAppend(title: string, ds: seq<Decl>, d: Decl)
    ensures Titled(title, ds + [d]) == Titled(title, ds) + (if ds == [] then [Marker(title)] else []) + [d]
  {
  }

  /** The include file as written: unchanged when it already starts with a
      quote or `<`, otherwise wrapped in double quotes. */
  function Quote(inc: string): (r: string)
    ensures |r| > 0 && (r[0] == '"' || r[0] == '<')
    ensures r == inc || r == "\"" + inc + "\""
  {
    if StartsWith(inc, "\"") || StartsWith(inc, "<") then inc else "\"" + inc + "\""
  }

  /** Quoting is idempotent, and leaves exactly the quoted names alone. */
  lemma QuoteIdempotent(inc: string)
    ensures Quote(Quote(inc)) == Quote(inc)
    ensures Quote(inc) == inc <==> |inc| > 0 && (inc[0] == '"' || inc[0] == '<')
  {
    var q := Quote(inc);
    assert StartsWith(q, [q[0]]);
    if |inc| > 0 && (inc[0] == '"' || inc[0] == '<') {
      assert StartsWith(inc, [inc[0]]);
    }
  }

  /** The set of quoted includes. */
  function QuotedSet(incs: seq<string>): (s: set<string>)
    ensures forall i :: 0 <= i < |incs| ==> Quote(incs[i]) in s
    ensures forall x :: x in s ==> exists i :: 0 <= i < |incs| && x == Quote(incs[i])
  {
    if incs == [] then {}
    else
      var init := incs[..|incs| - 1];
      var s := QuotedSet(init);
      assert forall i :: 0 <= i < |init| ==> init[i] == incs[i];
      s + {Quote(incs[|incs| - 1])}
  }

  /** The outputer for headers (`HOutput`) and, sharing its prologue and
      include handling, for C sources (`COutput`). */
  class HOutput {
    var includes: seq<string>
    var decls: seq<Decl>

    constructor ()
      ensures includes == [] && decls == []
    {
      includes := [];
      decls := [];
    }

    /** `_build_imports`: the box's own imports under a marker written
        before the first one. */
    method BuildImports(box: BoxDesc)
      modifies this`decls
      ensures decls == old(decls) + Titled(ImportsTitle, OwnDecls(box.imports, box.name, false))
    {
      var i := 0;
      var k := 0;
      while k < |box.imports|
        invariant 0 <= k <= |box.imports|
        invariant i == |OwnDecls(box.imports[..k], box.name, false)|
        invariant decls == old(decls) + Titled(ImportsTitle, OwnDecls(box.imports[..k], box.name, false))
      {
        var l := box.imports[k];
        assert box.imports[..k + 1][..k] == box.imports[..k];
        if l.source == box.name {
          TitledAppend(ImportsTitle, OwnDecls(box.imports[..k], box.name, false), FnDecl(l.fn, false));
          if i == 0 {
            decls := decls + [Marker(ImportsTitle)];
          }
          decls := decls + [FnDecl(l.fn, false)];
          i := i + 1;
        }
        k := k + 1;
      }
      assert box.imports[..k] == box.imports;
    }

    /** `_build_exports`: the box's own exports, declared `extern`, under a
        marker written before the first one. */
    method BuildExports(box: BoxDesc)
      modifies this`decls
      ensures decls == old(decls) + Titled(ExportsTitle, OwnDecls(box.exports, box.name, true))
    {
      var i := 0;
      var k := 0;
      while k < |box.exports|
        invariant 0 <= k <= |box.exports|
        invariant i == |OwnDecls(box.exports[..k], box.name, true)|
        invariant decls == old(decls) + Titled(ExportsTitle, OwnDecls(box.exports[..k], box.name, true))
      {
        var l := box.exports[k];
        assert box.exports[..k + 1][..k] == box.exports[..k];
        if l.source == box.name {
          TitledAppend(ExportsTitle, OwnDecls(box.exports[..k], box.name, true), FnDecl(l.fn, true));
          if i == 0 {
            decls := decls + [Marker(ExportsTitle)];
          }
          decls := decls + [FnDecl(l.fn, true)];
          i := i + 1;
        }
        k := k + 1;
      }
      assert box.exports[..k] == box.exports;
    }

    /** `build_prologue`: the standard includes, the box's imports and
        exports, then the hooks of every sub-box. */
    method BuildPrologue(box: BoxDesc)
      modifies this`includes, this`decls
      ensures includes == old(includes) + ["<stdint.h>", "<stdbool.h>", "<sys/types.h>"]
      ensures decls == old(decls)
        + Titled(ImportsTitle, OwnDecls(box.imports, box.name, false))
        + Titled(ExportsTitle, OwnDecls(box.exports, box.name, true))
        + HookDecls(box.subboxes)
    {
      includes := includes + ["<stdint.h>"];
      includes := includes + ["<stdbool.h>"];
      includes := includes + ["<sys/types.h>"];
      BuildImports(box);
      BuildExports(box);
      BuildHooks(box.subboxes);
    }

    /** The hooks part of `build_prologue`: a marker, then the four hooks of
        each sub-box in order. */
    method BuildHooks(subboxes: seq<string>)
      modifies this`decls
      ensures decls == old(decls) + HookDecls(subboxes)
    {
      if subboxes != [] {
        decls := decls + [Marker(HooksTitle)];
      }
      ghost var before := decls;
      var k := 0;
      while k < |subboxes|
        invariant 0 <= k <= |subboxes|
        invariant decls == before + AllHooks(subboxes[..k])
      {
        var b := subboxes[k];
        assert subboxes[..k + 1][..k] == subboxes[..k];
        var hooks := BoxHooks(b);
        decls := decls + [hooks[0], hooks[1], hooks[2], hooks[3]];
        assert hooks == [hooks[0], hooks[1], hooks[2], hooks[3]];
        k := k + 1;
      }
      assert subboxes[..k] == subboxes;
    }

    /** The include handling of `getvalue`: every include quoted, each one
        kept once, in ascending order. */
    method SortedIncludes() returns (incs: seq<string>)
      ensures StrictlyAscending(incs)
      ensures forall x :: x in incs <==> x in QuotedSet(includes)
    {
      incs := [];
      var k := 0;
      while k < |includes|
        invariant 0 <= k <= |includes|
        invariant StrictlyAscending(incs)
        invariant forall x :: x in incs <==> x in QuotedSet(includes[..k])
      {
        var inc := includes[k];
        if !(StartsWith(inc, "\"") || StartsWith(inc, "<")) {
          inc := "\"" + inc + "\"";
        }
        assert includes[..k + 1][..k] == includes[..k];
        incs := InsertUnique(inc, incs);
        k := k + 1;
      }
      assert includes[..k] == includes;
    }

    /** `COutput.getvalue`: the sorted `#include` lines become the first
        declaration. */
    method InsertIncludes()
      modifies this`decls
      ensures exists incs: seq<string> ::
        && StrictlyAscending(incs)
        && (forall x :: x in incs <==> x in QuotedSet(includes))
        && decls == [IncludeLines(incs)] + old(decls)
    {
      var incs := SortedIncludes();
      decls := [IncludeLines(incs)] + decls;
    }
  }
}
