/** Rendering the templates inside a specification: JSON trees, and what the lists of objects to
    migrate look like after rendering.  Executing a template and parsing JSON text are left open;
    a template may give another result at every place it occurs. */
module Rendering {
  import opened Common
  import opened ModuleSpecs
  import MS = ModuleStore

  datatype Json =
    | Null
    | Bool(b: bool)
    | Number(n: real)
    | Str(s: string)
    | Arr(items: seq<Json>)
    | Obj(fields: map<string, Json>)

  datatype Key = Field(name: string) | Index(i: nat)

  type Path = seq<Key>

  /** `execute` fails if the template does not parse or cannot be evaluated. */
  datatype Engine = Engine(execute: (Path, string) -> Option<string>, parse: string -> Option<Json>)

  predicate Contains(s: string, t: string) {
    exists i | 0 <= i <= |s| :: t <= s[i..]
  }

  predicate IsTemplate(s: string) {
    Contains(s, "{{") && Contains(s, "}}")
  }

  /** Text that reads as JSON keeps the type it has there. */
  function RenderString(e: Engine, p: Path, s: string): Option<Json> {
    if !IsTemplate(s) then Some(Str(s))
    else match e.execute(p, s)
      case None => None
      case Some(text) => if e.parse(text).Some? then e.parse(text) else Some(Str(text))
  }

  function Render(e: Engine, p: Path, v: Json): Option<Json>
    decreases v
  {
    match v
    case Obj(fields) =>
      var rendered := map k | k in fields :: Render(e, p + [Field(k)], fields[k]);
      if exists k | k in fields :: rendered[k].None? then None
      else Some(Obj(map k | k in fields :: rendered[k].value))
    case Arr(items) =>
      var rendered := seq(|items|, i requires 0 <= i < |items| => Render(e, p + [Index(i)], items[i]));
      if exists i | 0 <= i < |items| :: rendered[i].None? then None
      else Some(Arr(seq(|items|, i requires 0 <= i < |items| => rendered[i].value)))
    case Str(s) => RenderString(e, p, s)
    case _ => Some(v)
  }

  /** The subtree at a path, if the path exists. */
  function Lookup(v: Json, q: Path): Option<Json>
    decreases q
  {
    if q == [] then Some(v)
    else match (v, q[0])
      case (Obj(fields), Field(k)) => if k in fields then Lookup(fields[k], q[1..]) else None
      case (Arr(items), Index(i)) => if i < |items| then Lookup(items[i], q[1..]) else None
      case _ => None
  }

  // ---------------------------------------------------------------- rendering and paths

  lemma RenderField(e: Engine, p: Path, v: Json, r: Json, k: string)
    requires v.Obj? && Render(e, p, v) == Some(r)
    ensures r.Obj? && r.fields.Keys == v.fields.Keys
    ensures k in v.fields ==> Render(e, p + [Field(k)], v.fields[k]) == Some(r.fields[k])
  {
  }

  lemma RenderItem(e: Engine, p: Path, v: Json, r: Json, i: nat)
    requires v.Arr? && Render(e, p, v) == Some(r)
    ensures r.Arr? && |r.items| == |v.items|
    ensures i < |v.items| ==> Render(e, p + [Index(i)], v.items[i]) == Some(r.items[i])
  {
  }

  /** Rendering commutes with taking subtrees: at every path of the original, the rendered tree has the
      rendered subtree. */
  lemma {:induction false} RenderAt(e: Engine, p: Path, v: Json, r: Json, q: Path)
    requires Render(e, p, v) == Some(r) && Lookup(v, q).Some?
    ensures Lookup(r, q).Some? && Lookup(r, q) == Render(e, p + q, Lookup(v, q).value)
    decreases q
  {
    if q == [] {
      assert p + q == p;
    } else {
      assert p + q == p + [q[0]] + q[1..];
      if q[0].Field? {
        RenderField(e, p, v, r, q[0].name);
        RenderAt(e, p + [q[0]], v.fields[q[0].name], r.fields[q[0].name], q[1..]);
      } else {
        RenderItem(e, p, v, r, q[0].i);
        RenderAt(e, p + [q[0]], v.items[q[0].i], r.items[q[0].i], q[1..]);
      }
    }
  }

  /** Keys, lengths, and everything that is not a template, are preserved at every depth. */
  lemma ShapePreserved(e: Engine, p: Path, v: Json, r: Json, q: Path)
    requires Render(e, p, v) == Some(r) && Lookup(v, q).Some?
    ensures Lookup(r, q).Some?
    ensures var x, y := Lookup(v, q).value, Lookup(r, q).value;
            && (x.Obj? ==> y.Obj? && y.fields.Keys == x.fields.Keys)
            && (x.Arr? ==> y.Arr? && |y.items| == |x.items|)
            && (!x.Obj? && !x.Arr? && !(x.Str? && IsTemplate(x.s)) ==> y == x)
  {
    RenderAt(e, p, v, r, q);
    var x, y := Lookup(v, q).value, Lookup(r, q).value;
    if x.Obj? {
      RenderField(e, p + q, x, y, "");
    } else if x.Arr? {
      RenderItem(e, p + q, x, y, 0);
    }
  }

  /** A template anywhere in the tree is replaced by the result of executing it there: the value it
      reads as, if it reads as JSON, and its text otherwise. */
  lemma TemplateReplaced(e: Engine, p: Path, v: Json, r: Json, q: Path)
    requires Render(e, p, v) == Some(r) && TemplateAt(v, q)
    ensures var text := e.execute(p + q, Lookup(v, q).value.s);
            && text.Some? && Lookup(r, q).Some?
            && (e.parse(text.value).Some? ==> Lookup(r, q) == e.parse(text.value))
            && (e.parse(text.value).None? ==> Lookup(r, q) == Some(Str(text.value)))
  {
    RenderAt(e, p, v, r, q);
  }

  /** Two of the same character side by side. */
  predicate Doubled(s: string, c: char) {
    exists i | 0 < i < |s| :: s[i - 1] == c && s[i] == c
  }

  lemma ContainsDoubled(s: string, c: char)
    ensures Contains(s, [c, c]) <==> Doubled(s, c)
  {
    if Contains(s, [c, c]) {
      var i :| 0 <= i <= |s| && [c, c] <= s[i..];
      assert s[i] == s[i..][0] == c && s[i + 1] == s[i..][1] == c;
      assert s[(i + 1) - 1] == c;
    }
    if Doubled(s, c) {
      var i :| 0 < i < |s| && s[i - 1] == c && s[i] == c;
      assert s[i - 1..][..2] == [c, c];
      assert [c, c] <= s[i - 1..];
    }
  }

  /** A text anywhere in the tree is executed if and only if two opening braces stand side by side in it and
      two closing ones do; otherwise it stays as it is. */
  lemma TextRendered(e: Engine, p: Path, v: Json, r: Json, q: Path, s: string)
    requires Render(e, p, v) == Some(r) && Lookup(v, q) == Some(Str(s))
    ensures Lookup(r, q).Some?
    ensures if Doubled(s, '{') && Doubled(s, '}') then
              var text := e.execute(p + q, s);
              text.Some?
              && Lookup(r, q).value == if e.parse(text.value).Some? then e.parse(text.value).value else Str(text.value)
            else Lookup(r, q).value == Str(s)
  {
    RenderAt(e, p, v, r, q);
    ContainsDoubled(s, '{');
    ContainsDoubled(s, '}');
  }

  /** The original has a template at this path. */
  predicate TemplateAt(v: Json, q: Path) {
    Lookup(v, q).Some? && Lookup(v, q).value.Str? && IsTemplate(Lookup(v, q).value.s)
  }

  ghost predicate TemplateFree(v: Json) {
    forall q :: !TemplateAt(v, q)
  }

  lemma TemplateBelow(v: Json, k: Key, x: Json, q: Path)
    requires Lookup(v, [k]) == Some(x)
    ensures Lookup(v, [k] + q) == Lookup(x, q)
    ensures TemplateAt(v, [k] + q) <==> TemplateAt(x, q)
  {
    assert ([k] + q)[1..] == q && [k][1..] == [];
    assert Lookup(x, []) == Some(x);
  }

  lemma FreeBelow(v: Json, k: Key, x: Json)
    requires TemplateFree(v) && Lookup(v, [k]) == Some(x)
    ensures TemplateFree(x)
  {
    forall q
      ensures !TemplateAt(x, q)
    {
      TemplateBelow(v, k, x, q);
    }
  }

  /** Rendering is the identity on trees without templates. */
  lemma {:induction false} RenderFree(e: Engine, p: Path, v: Json)
    requires TemplateFree(v)
    ensures Render(e, p, v) == Some(v)
    decreases v
  {
    match v
    case Obj(fields) =>
      forall k | k in fields
        ensures Render(e, p + [Field(k)], fields[k]) == Some(fields[k])
      {
        FreeBelow(v, Field(k), fields[k]);
        RenderFree(e, p + [Field(k)], fields[k]);
      }
      assert Render(e, p, v).Some?;
      assert Render(e, p, v).value.fields == fields;
    case Arr(items) =>
      forall i | 0 <= i < |items|
        ensures Render(e, p + [Index(i)], items[i]) == Some(items[i])
      {
        FreeBelow(v, Index(i), items[i]);
        RenderFree(e, p + [Index(i)], items[i]);
      }
      assert Render(e, p, v).Some?;
      assert Render(e, p, v).value.items == items;
    case Str(s) => assert !TemplateAt(v, []);
    case _ =>
  }

  /** Rendering fails exactly when some template in the tree does. */
  lemma RenderFailsIff(e: Engine, p: Path, v: Json)
    ensures Render(e, p, v).None? <==> exists q :: FailsAt(e, p, v, q)
  {
    if Render(e, p, v).None? {
      var q := FailingPath(e, p, v);
    } else if q :| FailsAt(e, p, v, q) {
      RenderAt(e, p, v, Render(e, p, v).value, q);
      assert false;
    }
  }

  predicate FailsAt(e: Engine, p: Path, v: Json, q: Path) {
    TemplateAt(v, q) && e.execute(p + q, Lookup(v, q).value.s).None?
  }

  lemma {:induction false} FailingPath(e: Engine, p: Path, v: Json) returns (q: Path)
    requires Render(e, p, v).None?
    ensures FailsAt(e, p, v, q)
    decreases v
  {
    if v.Obj? {
      var k :| k in v.fields && Render(e, p + [Field(k)], v.fields[k]).None?;
      q := FailsBelow(e, p, v, Field(k), v.fields[k]);
    } else if v.Arr? {
      var i: nat :| i < |v.items| && Render(e, p + [Index(i)], v.items[i]).None?;
      q := FailsBelow(e, p, v, Index(i), v.items[i]);
    } else {
      q := [];
      assert p + q == p;
    }
  }

  lemma FailsBelow(e: Engine, p: Path, v: Json, k: Key, x: Json) returns (q: Path)
    requires Lookup(v, [k]) == Some(x) && x < v && Render(e, p + [k], x).None?
    ensures FailsAt(e, p, v, q)
    decreases v, 0
  {
    var q' := FailingPath(e, p + [k], x);
    q := [k] + q';
    TemplateBelow(v, k, x, q');
    assert p + [k] + q' == p + q;
  }

  // ---------------------------------------------------------------- migration lists

  /** Empty lists are left out when a specification is written as JSON. */
  function ListField(name: string, list: seq<string>): map<string, Json> {
    if list == [] then map[] else map[name := Arr(seq(|list|, i requires 0 <= i < |list| => Str(list[i])))]
  }

  function MarshalMigration(m: Migration): Json {
    Obj(ListField("pvcs", m.pvcs) + ListField("configMaps", m.configMaps) + ListField("secrets", m.secrets))
  }

  /** `extra` stands for the fields that do not matter here. */
  function Marshal(h: HelmSpec, extra: map<string, Json>): Json {
    Obj(extra + map["namespace" := Str(h.namespace), "migration" := MarshalMigration(h.migration)])
  }

  /** Decoding into a list of strings: missing and null give the empty list, a null item the empty
      string, and anything else that is not a string an error. */
  function DecodeList(v: Option<Json>): Option<seq<string>> {
    match v
    case None => Some([])
    case Some(Null) => Some([])
    case Some(Arr(items)) =>
      if forall i | 0 <= i < |items| :: items[i].Str? || items[i].Null?
      then Some(seq(|items|, i requires 0 <= i < |items| => if items[i].Str? then items[i].s else ""))
      else None
    case _ => None
  }

  /** A migration list of a module as the migration sees it: marshalled, rendered, decoded. */
  function RenderedList(e: Engine, h: HelmSpec, extra: map<string, Json>, name: string): Option<seq<string>> {
    match Render(e, [], Marshal(h, extra))
    case None => None
    case Some(r) => DecodeList(Lookup(r, [Field("migration"), Field(name)]))
  }

  function ListOf(m: Migration, name: string): seq<string> {
    match name
    case "pvcs" => m.pvcs
    case "configMaps" => m.configMaps
    case "secrets" => m.secrets
    case _ => []
  }

  /** Where a migration list is found in the marshalled specification. */
  lemma MarshalledList(h: HelmSpec, extra: map<string, Json>, name: string)
    requires name == "pvcs" || name == "configMaps" || name == "secrets"
    ensures var v := Marshal(h, extra); var list := ListOf(h.migration, name);
            && v.Obj? && "migration" in v.fields && v.fields["migration"].Obj?
            && (name in v.fields["migration"].fields <==> list != [])
            && (list != [] ==>
                  v.fields["migration"].fields[name].Arr? && |v.fields["migration"].fields[name].items| == |list|)
  {
  }

  lemma LookupTwo(v: Json, j: string, k: string)
    requires v.Obj? && j in v.fields && v.fields[j].Obj?
    ensures Lookup(v, [Field(j), Field(k)])
            == if k in v.fields[j].fields then Some(v.fields[j].fields[k]) else None
  {
    var at := [Field(j), Field(k)];
    assert at[1..] == [Field(k)] && at[1..][1..] == [];
    assert Lookup(v, at) == Lookup(v.fields[j], [Field(k)]);
    assert k in v.fields[j].fields ==> Lookup(v.fields[j].fields[k], []) == Some(v.fields[j].fields[k]);
  }

  /** Rendering never changes how many objects a migration list names. */
  lemma RenderedLength(e: Engine, h: HelmSpec, extra: map<string, Json>, name: string)
    requires name == "pvcs" || name == "configMaps" || name == "secrets"
    requires RenderedList(e, h, extra, name).Some?
    ensures |RenderedList(e, h, extra, name).value| == |ListOf(h.migration, name)|
  {
    hide Render, Lookup, Marshal, ListOf;
    var v := Marshal(h, extra);
    var r := Render(e, [], v).value;
    MarshalledList(h, extra, name);
    RenderField(e, [], v, r, "migration");
    RenderField(e, [] + [Field("migration")], v.fields["migration"], r.fields["migration"], name);
    LookupTwo(v, "migration", name);
    LookupTwo(r, "migration", name);
    if ListOf(h.migration, name) != [] {
      ShapePreserved(e, [], v, r, [Field("migration"), Field(name)]);
    }
  }

  /** So for a fork the rendered lists of source and copy are equally long whenever both decode, however
      differently their templates evaluate, as long as the copy's lists are not edited. */
  lemma ForkListsAlign(source: MS.Record, dest: WorkspaceRef, e: Engine, extra: map<string, Json>,
                       copy: HelmSpec, e': Engine, extra': map<string, Json>, name: string)
    requires name == "pvcs" || name == "configMaps" || name == "secrets"
    requires source.spec.helm.Some? && copy.migration == MS.ForkCopy(source, dest).spec.helm.value.migration
    requires RenderedList(e, source.spec.helm.value, extra, name).Some? && RenderedList(e', copy, extra', name).Some?
    ensures |RenderedList(e, source.spec.helm.value, extra, name).value| == |RenderedList(e', copy, extra', name).value|
  {
    RenderedLength(e, source.spec.helm.value, extra, name);
    RenderedLength(e', copy, extra', name);
  }
}
