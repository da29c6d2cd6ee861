/** Layered Helm values: how the values of a module's list are merged, and who wins at each path.
    Values are trees without nulls; reading files and ConfigMaps and parsing text are left open. */
module HelmValues {
  import opened Common

  datatype Value = Leaf(text: string) | Table(fields: map<string, Value>)

  type Path = seq<string>

  /** Deep merge: tables are united, and in every conflict the first argument wins. */
  function Coalesce(first: Value, second: Value): Value
    decreases first
  {
    if first.Leaf? || second.Leaf? then first
    else Table(map k | k in first.fields.Keys + second.fields.Keys ::
                 if k !in first.fields then second.fields[k]
                 else if k !in second.fields then first.fields[k]
                 else Coalesce(first.fields[k], second.fields[k]))
  }

  /** What is visible at a path. */
  datatype View = Missing | Text(text: string) | Subtree

  function At(v: Value, q: Path): View
    decreases q
  {
    if q == [] then (if v.Leaf? then Text(v.text) else Subtree)
    else if v.Table? && q[0] in v.fields then At(v.fields[q[0]], q[1..])
    else Missing
  }

  /** A layer settles a path if it has something there, or a text above it. */
  predicate Settles(v: Value, q: Path)
    decreases q
  {
    q == [] || v.Leaf? || (q[0] in v.fields && Settles(v.fields[q[0]], q[1..]))
  }

  /** At every path the first argument decides if it settles the path, else the second. */
  lemma {:induction false} CoalesceAt(first: Value, second: Value, q: Path)
    ensures At(Coalesce(first, second), q) == if Settles(first, q) then At(first, q) else At(second, q)
    decreases q
  {
    if q != [] && first.Table? {
      if second.Leaf? {
        UnsettledMissing(first, q);
      } else if q[0] in first.fields && q[0] in second.fields {
        CoalesceAt(first.fields[q[0]], second.fields[q[0]], q[1..]);
      } else if q[0] in first.fields {
        UnsettledMissing(first.fields[q[0]], q[1..]);
      }
    }
  }

  lemma {:induction false} UnsettledMissing(v: Value, q: Path)
    ensures !Settles(v, q) ==> At(v, q).Missing?
    decreases q
  {
    if q != [] && v.Table? && q[0] in v.fields {
      UnsettledMissing(v.fields[q[0]], q[1..]);
    }
  }

  /** What is visible at all paths determines a tree. */
  lemma {:induction false} ViewsDetermine(v: Value, w: Value)
    requires forall q :: At(v, q) == At(w, q)
    ensures v == w
    decreases v
  {
    assert At(v, []) == At(w, []);
    if v.Table? {
      forall k
        ensures k in v.fields <==> k in w.fields
        ensures k in v.fields ==> v.fields[k] == w.fields[k]
      {
        assert [k][1..] == [];
        assert k in v.fields ==> At(v, [k]) == At(v.fields[k], []);
        assert k in w.fields ==> At(w, [k]) == At(w.fields[k], []);
        assert At(v, [k]) == At(w, [k]);
        if k in v.fields && k in w.fields {
          forall q
            ensures At(v.fields[k], q) == At(w.fields[k], q)
          {
            assert ([k] + q)[1..] == q;
            assert At(v, [k] + q) == At(w, [k] + q);
          }
          ViewsDetermine(v.fields[k], w.fields[k]);
        }
      }
      assert v.fields.Keys == w.fields.Keys;
    }
  }

  /** The merge of a list of layers, later layers first in precedence. */
  function Merged(layers: seq<Value>): Value {
    if layers == [] then Table(map[])
    else if |layers| == 1 then layers[0]
    else Coalesce(layers[|layers| - 1], Merged(layers[..|layers| - 1]))
  }

  /** The index of the last layer that settles a path, if any. */
  function LastSettling(layers: seq<Value>, q: Path): (r: Option<nat>)
    ensures r.Some? ==> r.value < |layers| && Settles(layers[r.value], q)
  {
    if layers == [] then None
    else if Settles(layers[|layers| - 1], q) then Some(|layers| - 1)
    else LastSettling(layers[..|layers| - 1], q)
  }

  lemma {:induction false} LastSettlingIs(layers: seq<Value>, q: Path)
    ensures LastSettling(layers, q).None? <==> forall i | 0 <= i < |layers| :: !Settles(layers[i], q)
    ensures LastSettling(layers, q).Some? ==>
              var j := LastSettling(layers, q).value;
              j < |layers| && Settles(layers[j], q) && forall i | j < i < |layers| :: !Settles(layers[i], q)
  {
    if layers != [] {
      var front := layers[..|layers| - 1];
      LastSettlingIs(front, q);
      assert forall i | 0 <= i < |front| :: layers[i] == front[i];
    }
  }

  /** At every path the merge shows what the last layer that settles the path shows. */
  lemma {:induction false} LastLayerWins(layers: seq<Value>, q: Path)
    requires forall i | 0 <= i < |layers| :: layers[i].Table?
    ensures Merged(layers).Table?
    ensures q != [] ==> At(Merged(layers), q) == match LastSettling(layers, q)
                                                 case None => Missing
                                                 case Some(j) => At(layers[j], q)
  {
    LastSettlingIs(layers, q);
    if |layers| == 1 {
      assert layers[..0] == [];
      UnsettledMissing(layers[0], q);
    } else if |layers| > 1 {
      var front := layers[..|layers| - 1];
      LastLayerWins(front, q);
      CoalesceAt(layers[|layers| - 1], Merged(front), q);
      LastSettlingIs(front, q);
    }
  }

  /** The layers of an adopted module: the values of the chart and of the release, if there are any,
      are put in front of the user's. */
  function Adopted(chart: Value, config: Value, user: seq<Value>): seq<Value> {
    (if chart == Table(map[]) then [] else [chart]) + (if config == Table(map[]) then [] else [config]) + user
  }

  lemma {:induction false} SettlingConcat(front: seq<Value>, back: seq<Value>, q: Path)
    ensures LastSettling(front + back, q)
            == match LastSettling(back, q)
               case Some(j) => Some(|front| + j)
               case None => LastSettling(front, q)
    decreases |back|
  {
    if back == [] {
      assert front + back == front;
    } else {
      assert (front + back)[..|front + back| - 1] == front + back[..|back| - 1];
      SettlingConcat(front, back[..|back| - 1], q);
    }
  }

  /** After adoption the user's values beat the release's, which beat the chart's. */
  lemma AdoptionPrecedence(chart: Value, config: Value, user: seq<Value>, q: Path)
    requires chart.Table? && config.Table? && (forall i | 0 <= i < |user| :: user[i].Table?) && q != []
    ensures var view := At(Merged(Adopted(chart, config, user)), q);
            if LastSettling(user, q).Some? then view == At(user[LastSettling(user, q).value], q)
            else if Settles(config, q) then view == At(config, q)
            else view == At(chart, q)
  {
    var charts := if chart == Table(map[]) then [] else [chart];
    var configs := if config == Table(map[]) then [] else [config];
    var layers := Adopted(chart, config, user);
    LastLayerWins(layers, q);
    LastSettlingIs(user, q);
    SettlingConcat(charts + configs, user, q);
    SettlingConcat(charts, configs, q);
    OneLayer(chart, q);
    OneLayer(config, q);
    UnsettledMissing(chart, q);
  }

  lemma OneLayer(v: Value, q: Path)
    ensures LastSettling([v], q) == if Settles(v, q) then Some(0) else None
    ensures q != [] ==> !Settles(Table(map[]), q) && LastSettling([], q) == None
  {
    assert [v][..0] == [];
  }

  /** The middle layer bars a path with a text above it, but the first layer has a table there. */
  predicate Barred(first: Value, middle: Value, q: Path) {
    Settles(middle, q) && !Settles(Coalesce(first, middle), q)
  }

  lemma {:induction false} CoalesceSettles(first: Value, second: Value, q: Path)
    ensures Settles(first, q) ==> Settles(Coalesce(first, second), q)
    ensures Settles(Coalesce(first, second), q) ==> Settles(first, q) || Settles(second, q)
    ensures Barred(first, second, q) ==> At(second, q).Missing?
    decreases q
  {
    if q != [] && first.Table? && second.Table? && q[0] in first.fields && q[0] in second.fields {
      CoalesceSettles(first.fields[q[0]], second.fields[q[0]], q[1..]);
    }
  }

  /** The order of nesting matters: the two ways of merging three layers agree at a path exactly when
      the middle layer does not bar the path, or the last has nothing there. */
  lemma AssociativeIff(a: Value, b: Value, c: Value, q: Path)
    ensures At(Coalesce(a, Coalesce(b, c)), q) == At(Coalesce(Coalesce(a, b), c), q)
            <==> !Barred(a, b, q) || At(c, q).Missing?
  {
    CoalesceAt(b, c, q);
    CoalesceAt(a, Coalesce(b, c), q);
    CoalesceAt(a, b, q);
    CoalesceAt(Coalesce(a, b), c, q);
    CoalesceSettles(a, b, q);
  }

  /** Three layers on which they differ. */
  lemma NotAssociative() returns (a: Value, b: Value, c: Value)
    ensures Coalesce(a, Coalesce(b, c)) != Coalesce(Coalesce(a, b), c)
  {
    var inner := Table(map["y" := Leaf("deep")]);
    a, b, c := Table(map["x" := Table(map[])]), Table(map["x" := Leaf("text")]), Table(map["x" := inner]);
    assert Coalesce(b, c).fields["x"] == Leaf("text");
    assert Coalesce(a, Coalesce(b, c)).fields["x"] == Table(map[]);
    assert Coalesce(a, b).fields["x"] == Table(map[]);
    assert Coalesce(Coalesce(a, b), c).fields["x"] == Coalesce(Table(map[]), inner);
    assert "y" in Coalesce(Table(map[]), inner).fields;
  }

  // ---------------------------------------------------------------- reading the list

  datatype ConfigMapRef = ConfigMapRef(namespace: string, name: string, key: string)

  /** One entry of a module's values list; any of the three may be set. */
  datatype Item = Item(file: Option<string>, configMap: Option<ConfigMapRef>, raw: Option<string>)

  /** The outside world: values files, ConfigMaps and the parser. */
  datatype World = World(
    readFile: string -> Option<Value>,
    getConfigMap: (string, string) -> Option<map<string, string>>,
    parse: string -> Option<Value>)

  function FileLayer(w: World, item: Item): Option<seq<Value>> {
    if item.file.None? || item.file.value == "" then Some([])
    else match w.readFile(item.file.value)
      case None => None
      case Some(v) => Some([v])
  }

  function ConfigMapLayer(w: World, item: Item): Option<seq<Value>> {
    if item.configMap.None? || item.configMap.value.name == "" then Some([])
    else
      var ref := item.configMap.value;
      match w.getConfigMap(ref.namespace, ref.name)
      case None => None
      case Some(data) =>
        if ref.key !in data || data[ref.key] == "" then Some([])
        else match w.parse(data[ref.key])
          case None => None
          case Some(v) => Some([v])
  }

  function RawLayer(w: World, item: Item): Option<seq<Value>> {
    if item.raw.None? || item.raw.value == "" then Some([])
    else match w.parse(item.raw.value)
      case None => None
      case Some(v) => Some([v])
  }

  /** The layers of one entry: its file, then its ConfigMap, then its inline values. */
  function ItemLayers(w: World, item: Item): Option<seq<Value>> {
    var a, b, c := FileLayer(w, item), ConfigMapLayer(w, item), RawLayer(w, item);
    if a.None? || b.None? || c.None? then None else Some(a.value + b.value + c.value)
  }

  function Layers(w: World, items: seq<Item>): Option<seq<Value>> {
    if items == [] then Some([])
    else
      var front, last := Layers(w, items[..|items| - 1]), ItemLayers(w, items[|items| - 1]);
      if front.None? || last.None? then None else Some(front.value + last.value)
  }

  lemma {:induction false} LayersFail(w: World, items: seq<Item>, n: nat)
    requires n <= |items|
    ensures Layers(w, items[..n]).None? ==> Layers(w, items).None?
    decreases |items| - n
  {
    if n < |items| {
      assert items[..n + 1][..n] == items[..n];
      LayersFail(w, items, n + 1);
    } else {
      assert items[..n] == items;
    }
  }

  // ---------------------------------------------------------------- precedence of entries

  /** What a list of layers shows at a path, if any of them settles it. */
  function Shown(layers: seq<Value>, q: Path): Option<View> {
    match LastSettling(layers, q)
    case None => None
    case Some(j) => Some(At(layers[j], q))
  }

  lemma ShownConcat(front: seq<Value>, back: seq<Value>, q: Path)
    ensures Shown(front + back, q) == if Shown(back, q).Some? then Shown(back, q) else Shown(front, q)
  {
    hide LastSettling, At, Settles;
    LastSettlingIs(front, q);
    LastSettlingIs(back, q);
    LastSettlingIs(front + back, q);
    SettlingConcat(front, back, q);
  }

  /** What one source of an entry says about a path: nothing if it is not set, empty, or does not
      settle the path. */
  function SourceView(layer: Option<seq<Value>>, q: Path): Option<View> {
    if layer.Some? && |layer.value| == 1 && Settles(layer.value[0], q) then Some(At(layer.value[0], q)) else None
  }

  /** Within an entry inline values beat the ConfigMap, which beats the file. */
  function EntryView(w: World, item: Item, q: Path): Option<View> {
    if SourceView(RawLayer(w, item), q).Some? then SourceView(RawLayer(w, item), q)
    else if SourceView(ConfigMapLayer(w, item), q).Some? then SourceView(ConfigMapLayer(w, item), q)
    else SourceView(FileLayer(w, item), q)
  }

  lemma OneShown(layer: Option<seq<Value>>, q: Path)
    requires layer.Some? && |layer.value| <= 1
    ensures Shown(layer.value, q) == SourceView(layer, q)
  {
    if layer.value != [] {
      assert layer.value == [layer.value[0]];
      OneLayer(layer.value[0], q);
    }
  }

  lemma EntryShown(w: World, item: Item, q: Path)
    requires ItemLayers(w, item).Some?
    ensures Shown(ItemLayers(w, item).value, q) == EntryView(w, item, q)
  {
    hide Shown, SourceView;
    var a, b, c := FileLayer(w, item), ConfigMapLayer(w, item), RawLayer(w, item);
    OneShown(a, q);
    OneShown(b, q);
    OneShown(c, q);
    ShownConcat(a.value + b.value, c.value, q);
    ShownConcat(a.value, b.value, q);
  }

  lemma {:induction false} ListShown(w: World, items: seq<Item>, i: nat, q: Path)
    requires Layers(w, items).Some? && i <= |items|
    requires forall j | i <= j < |items| :: EntryView(w, items[j], q).None?
    ensures i == 0 ==> Shown(Layers(w, items).value, q).None?
    ensures i > 0 && EntryView(w, items[i - 1], q).Some? ==>
              Shown(Layers(w, items).value, q) == EntryView(w, items[i - 1], q)
    decreases |items|
  {
    hide Shown, EntryView, ItemLayers;
    if items != [] {
      var front, last := items[..|items| - 1], items[|items| - 1];
      EntryShown(w, last, q);
      ShownConcat(Layers(w, front).value, ItemLayers(w, last).value, q);
      if i < |items| {
        assert forall j | i <= j < |front| :: front[j] == items[j];
        ListShown(w, front, i, q);
      }
    } else {
      NothingShown(q);
    }
  }

  lemma NothingShown(q: Path)
    ensures Shown([], q).None?
  {
  }

  /** An entry has nothing to say at a path: none of the sources it sets settles the path. */
  predicate Silent(w: World, item: Item, q: Path) {
    && (item.raw.Some? && item.raw.value != "" && w.parse(item.raw.value).Some? ==>
          !Settles(w.parse(item.raw.value).value, q))
    && (item.configMap.Some? && item.configMap.value.name != "" ==>
          var ref := item.configMap.value;
          var data := w.getConfigMap(ref.namespace, ref.name);
          data.Some? && ref.key in data.value && data.value[ref.key] != "" && w.parse(data.value[ref.key]).Some? ==>
            !Settles(w.parse(data.value[ref.key]).value, q))
    && (item.file.Some? && item.file.value != "" && w.readFile(item.file.value).Some? ==>
          !Settles(w.readFile(item.file.value).value, q))
  }

  lemma SilentIff(w: World, item: Item, q: Path)
    requires ItemLayers(w, item).Some?
    ensures Silent(w, item, q) <==> EntryView(w, item, q).None?
  {
    hide Settles, At;
  }

  /** What the sources of an entry show, by their fields. */
  lemma EntryShows(w: World, item: Item, q: Path)
    requires ItemLayers(w, item).Some?
    ensures item.raw.Some? && item.raw.value != "" ==> w.parse(item.raw.value).Some?
    ensures item.raw.Some? && item.raw.value != "" && Settles(w.parse(item.raw.value).value, q) ==>
              EntryView(w, item, q) == Some(At(w.parse(item.raw.value).value, q))
    ensures Silent(w, item.(configMap := None, file := None), q)
            && item.configMap.Some? && item.configMap.value.name != "" ==>
              var ref := item.configMap.value;
              var data := w.getConfigMap(ref.namespace, ref.name);
              && data.Some?
              && (ref.key in data.value && data.value[ref.key] != "" ==>
                    && w.parse(data.value[ref.key]).Some?
                    && (Settles(w.parse(data.value[ref.key]).value, q) ==>
                          EntryView(w, item, q) == Some(At(w.parse(data.value[ref.key]).value, q))))
    ensures Silent(w, item.(file := None), q) && item.file.Some? && item.file.value != "" ==>
              && w.readFile(item.file.value).Some?
              && (Settles(w.readFile(item.file.value).value, q) ==>
                    EntryView(w, item, q) == Some(At(w.readFile(item.file.value).value, q)))
  {
    hide Settles, At;
  }

  /** The last entry that is not silent at a path decides it, and within this entry the inline values, or
      else the text of the ConfigMap under its key, or else the file; nothing is there if all are silent. */
  lemma LaterEntryWins(w: World, items: seq<Item>, i: nat, q: Path)
    requires Layers(w, items).Some? && i <= |items| && q != []
    requires forall v | v in Layers(w, items).value :: v.Table?
    requires forall j | i <= j < |items| :: Silent(w, items[j], q)
    ensures var merged := Merged(Layers(w, items).value);
            if i == 0 then At(merged, q).Missing?
            else
              var item := items[i - 1];
              if item.raw.Some? && item.raw.value != "" && w.parse(item.raw.value).Some?
                 && Settles(w.parse(item.raw.value).value, q)
              then At(merged, q) == At(w.parse(item.raw.value).value, q)
              else if item.configMap.Some? && item.configMap.value.name != ""
                      && var ref := item.configMap.value;
                      var data := w.getConfigMap(ref.namespace, ref.name);
                      && data.Some? && ref.key in data.value && data.value[ref.key] != ""
                      && w.parse(data.value[ref.key]).Some? && Settles(w.parse(data.value[ref.key]).value, q)
              then
                var ref := item.configMap.value;
                At(merged, q) == At(w.parse(w.getConfigMap(ref.namespace, ref.name).value[ref.key]).value, q)
              else
                item.file.Some? && item.file.value != "" && w.readFile(item.file.value).Some?
                && Settles(w.readFile(item.file.value).value, q) ==>
                  At(merged, q) == At(w.readFile(item.file.value).value, q)
  {
    hide EntryView, Layers, Merged, At, LastSettling, Settles, ItemLayers, Silent;
    var layers := Layers(w, items).value;
    LastLayerWins(layers, q);
    forall j | 0 <= j < |items|
      ensures ItemLayers(w, items[j]).Some?
    {
      EntryReadable(w, items, j);
    }
    forall j | i <= j < |items|
      ensures EntryView(w, items[j], q).None?
    {
      SilentIff(w, items[j], q);
    }
    ListShown(w, items, i, q);
    if i > 0 {
      EntryShows(w, items[i - 1], q);
      Parts(w, items[i - 1], q);
    }
  }

  /** When the sources before the last are silent. */
  lemma Parts(w: World, item: Item, q: Path)
    ensures (item.raw.Some? && item.raw.value != "" && w.parse(item.raw.value).Some? ==>
               !Settles(w.parse(item.raw.value).value, q))
            <==> Silent(w, item.(configMap := None, file := None), q)
    ensures Silent(w, item.(configMap := None, file := None), q)
            && (item.configMap.Some? && item.configMap.value.name != "" ==>
                  var ref := item.configMap.value;
                  var data := w.getConfigMap(ref.namespace, ref.name);
                  (data.Some? && ref.key in data.value && data.value[ref.key] != ""
                   && w.parse(data.value[ref.key]).Some?) ==> !Settles(w.parse(data.value[ref.key]).value, q))
            <==> Silent(w, item.(file := None), q)
  {
    hide Settles;
  }

  lemma {:induction false} EntryReadable(w: World, items: seq<Item>, j: nat)
    requires Layers(w, items).Some? && j < |items|
    ensures ItemLayers(w, items[j]).Some?
  {
    if j < |items| - 1 {
      EntryReadable(w, items[..|items| - 1], j);
    }
  }

  /** The list is unreadable if one of its entries is. */
  lemma LayersFailIff(w: World, items: seq<Item>)
    ensures Layers(w, items).None? <==> exists j | 0 <= j < |items| :: ItemLayers(w, items[j]).None?
  {
    if Layers(w, items).Some? {
      forall j: nat | j < |items|
        ensures ItemLayers(w, items[j]).Some?
      {
        EntryReadable(w, items, j);
      }
    } else {
      var j := FailingEntry(w, items);
    }
  }

  lemma {:induction false} FailingEntry(w: World, items: seq<Item>) returns (j: nat)
    requires Layers(w, items).None?
    ensures j < |items| && ItemLayers(w, items[j]).None?
  {
    if ItemLayers(w, items[|items| - 1]).None? {
      j := |items| - 1;
    } else {
      j := FailingEntry(w, items[..|items| - 1]);
    }
  }

  /** Some source that the entry sets cannot be read: a file, a ConfigMap, a non-empty text in one, or inline
      values. */
  predicate Unreadable(w: World, item: Item) {
    || (item.file.Some? && item.file.value != "" && w.readFile(item.file.value).None?)
    || (item.configMap.Some? && item.configMap.value.name != ""
        && var ref := item.configMap.value;
        var data := w.getConfigMap(ref.namespace, ref.name);
        data.None? || (ref.key in data.value && data.value[ref.key] != "" && w.parse(data.value[ref.key]).None?))
    || (item.raw.Some? && item.raw.value != "" && w.parse(item.raw.value).None?)
  }

  lemma UnreadableIs(w: World, item: Item)
    ensures Unreadable(w, item) <==> ItemLayers(w, item).None?
  {
  }

  // ---------------------------------------------------------------- the loops

  /** Reads the sources of one entry in order. */
  method ReadItem(w: World, item: Item) returns (r: Option<seq<Value>>)
    ensures r == ItemLayers(w, item)
  {
    var slice: seq<Value> := [];
    if item.file.Some? && item.file.value != "" {
      var v := w.readFile(item.file.value);
      if v.None? {
        return None;
      }
      slice := slice + [v.value];
    }
    assert FileLayer(w, item).Some? && slice == FileLayer(w, item).value;
    if item.configMap.Some? && item.configMap.value.name != "" {
      var ref := item.configMap.value;
      var data := w.getConfigMap(ref.namespace, ref.name);
      if data.None? {
        return None;
      }
      if ref.key in data.value && data.value[ref.key] != "" {
        var v := w.parse(data.value[ref.key]);
        if v.None? {
          return None;
        }
        slice := slice + [v.value];
      }
    }
    assert slice == FileLayer(w, item).value + ConfigMapLayer(w, item).value;
    if item.raw.Some? && item.raw.value != "" {
      var v := w.parse(item.raw.value);
      if v.None? {
        return None;
      }
      slice := slice + [v.value];
    }
    assert slice == FileLayer(w, item).value + ConfigMapLayer(w, item).value + RawLayer(w, item).value;
    r := Some(slice);
  }

  /** Collects the layers of all entries and folds them; any unreadable source is an error. */
  method MergeHelmValues(w: World, items: seq<Item>) returns (r: Result<Value>)
    ensures match Layers(w, items)
            case None => r.Failure?
            case Some(layers) => r == Success(Merged(layers))
    ensures r.Failure? <==> exists j | 0 <= j < |items| :: Unreadable(w, items[j])
  {
    hide Layers, Unreadable;
    FailsIff(w, items);
    var slice := ReadAll(w, items);
    if slice.None? {
      return Failure;
    }
    var merged := Fold(slice.value);
    r := Success(merged);
  }

  lemma FailsIff(w: World, items: seq<Item>)
    ensures Layers(w, items).None? <==> exists j | 0 <= j < |items| :: Unreadable(w, items[j])
  {
    LayersFailIff(w, items);
    forall j | 0 <= j < |items|
      ensures Unreadable(w, items[j]) <==> ItemLayers(w, items[j]).None?
    {
      UnreadableIs(w, items[j]);
    }
  }

  /** The first loop: the layers of all entries in order. */
  method ReadAll(w: World, items: seq<Item>) returns (r: Option<seq<Value>>)
    ensures r == Layers(w, items)
  {
    hide ItemLayers;
    var slice: seq<Value> := [];
    for n := 0 to |items|
      invariant Layers(w, items[..n]) == Some(slice)
    {
      assert items[..n + 1][..n] == items[..n];
      LayersFail(w, items, n + 1);
      var layers := ReadItem(w, items[n]);
      if layers.None? {
        return None;
      }
      slice := slice + layers.value;
    }
    assert items[..|items|] == items;
    r := Some(slice);
  }

  /** The second loop: each layer over the ones before it. */
  method Fold(slice: seq<Value>) returns (merged: Value)
    ensures merged == Merged(slice)
  {
    merged := Table(map[]);
    if |slice| > 0 {
      merged := slice[0];
      for i := 1 to |slice|
        invariant merged == Merged(slice[..i])
      {
        assert slice[..i + 1][..i] == slice[..i];
        merged := Coalesce(slice[i], merged);
      }
      assert slice[..|slice|] == slice;
    }
  }
}
