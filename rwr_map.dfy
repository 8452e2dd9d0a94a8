/**
 * `rwr/map.py`: the parser of a map's `objects.svg`. It reads the inkscape
 * labels of the SVG groups, dispatches each group on its label, and reads
 * the `key=value;` descriptions of the rectangles inside them, into the
 * map's general information, its capture zones and its spawn points.
 *
 * The SVG file is given as its tree of elements. Coordinates are floats and
 * are not modelled: a soldier spawn point is only counted, and a capture
 * zone or a vehicle spawn point keeps its non-geometric fields.
 */
module RwrMap {
  import opened Wrappers
  import opened Text
  import opened Decimal
  import Seqs

  /** The exceptions the parser can raise. */
  datatype MapError =
    | IndexError         // a description entry without `=`
    | ValueError         // a `faction_index` that is not an integer
    | KeyError           // an unknown namespace prefix
    | UnboundLocalError  // a vehicle whose description names neither `key` nor `tag`, first of its layer

  // ---------------------------------------------------------------- names

  const SvgUri: string := "http://www.w3.org/2000/svg"
  const InkscapeUri: string := "http://www.inkscape.org/namespaces/inkscape"

  /** `namespaces`: the prefixes the parser uses. */
  const Namespaces: map<string, string> := map["svg" := SvgUri, "inkscape" := InkscapeUri]

  /** `nse(namespace, tag_name)`: the tag in lxml's `{uri}tag` form. */
  function Nse(ns: string, tag: string): (r: Result<string, MapError>)
    ensures r.Success? <==> ns in Namespaces
    ensures r.Success? ==> r.value == "{" + Namespaces[ns] + "}" + tag
  {
    if ns in Namespaces then Success("{" + Namespaces[ns] + "}" + tag) else Failure(KeyError)
  }

  /** The local name comes back from a namespaced tag: it is what follows the first `}`. */
  lemma NseTag(ns: string, tag: string)
    requires ns in Namespaces
    ensures SplitFirst(Nse(ns, tag).value, '}') == Some(("{" + Namespaces[ns], tag))
  {
    var prefix := "{" + Namespaces[ns];
    assert '}' !in prefix;
    FindCharAfterFree(prefix, '}', tag);
    assert Nse(ns, tag).value == prefix + ['}'] + tag;
    assert (prefix + ['}'] + tag)[..|prefix|] == prefix;
    assert (prefix + ['}'] + tag)[|prefix| + 1..] == tag;
  }

  /** `nse('svg', 'g')` and `nse('svg', 'rect')`, the two tags the parser looks for. */
  const SvgG: string := "{" + SvgUri + "}" + "g"
  const SvgRect: string := "{" + SvgUri + "}" + "rect"

  // ---------------------------------------------------------------- parse_attrs

  /** One description entry: split at the first `=`, both halves stripped; an entry without `=` has no second half. */
  function Entry(param: string): (r: Result<(string, string), MapError>)
    ensures r.Failure? <==> '=' !in Strip(param)
    ensures r.Failure? ==> r.error == IndexError
  {
    match SplitFirst(Strip(param), '=')
    case None => Failure(IndexError)
    case Some((k, v)) => Success((Strip(k), Strip(v)))
  }

  /** The values of a list of outcomes, or the first failure among them: a loop that stops at the first exception. */
  function Collect<T(==), E(==)>(rs: seq<Result<T, E>>): (r: Result<seq<T>, E>)
    ensures r.Success? <==> forall i :: 0 <= i < |rs| ==> rs[i].Success?
    ensures r.Success? ==> |r.value| == |rs| && forall i :: 0 <= i < |rs| ==> r.value[i] == rs[i].value
    ensures r.Failure? ==> exists i :: 0 <= i < |rs| && rs[i] == Failure(r.error) && forall j :: 0 <= j < i ==> rs[j].Success?
  {
    if rs == [] then Success([])
    else if rs[0].Failure? then Failure(rs[0].error)
    else
      var rest := Collect(rs[1..]);
      assert forall i :: 1 <= i < |rs| ==> rs[i] == rs[1..][i - 1];
      if rest.Failure? then
        var k :| 0 <= k < |rs[1..]| && rs[1..][k] == Failure(rest.error) && forall j :: 0 <= j < k ==> rs[1..][j].Success?;
        assert rs[k + 1] == Failure(rest.error);
        Failure(rest.error)
      else Success([rs[0].value] + rest.value)
  }

  /** The entries of the non-empty segments, in order; the first bad one raises. */
  function Entries(params: seq<string>): (r: Result<seq<(string, string)>, MapError>)
  {
    Collect(seq(|params|, i requires 0 <= i < |params| => Entry(params[i])))
  }

  /** The entries fail exactly when some segment has no `=`, and then with `IndexError`. */
  lemma EntriesRefused(params: seq<string>)
    ensures Entries(params).Failure? <==> exists p :: p in params && '=' !in Strip(p)
    ensures Entries(params).Failure? ==> Entries(params).error == IndexError
  {
    var rs := seq(|params|, i requires 0 <= i < |params| => Entry(params[i]));
    var r := Collect(rs);
    assert r == Entries(params);
    if r.Failure? {
      var i :| 0 <= i < |rs| && rs[i] == Failure(r.error) && forall j :: 0 <= j < i ==> rs[j].Success?;
      assert Entry(params[i]).Failure?;
    } else {
      forall p | p in params
        ensures '=' in Strip(p)
      {
        var i :| 0 <= i < |params| && params[i] == p;
        assert rs[i].Success?;
      }
    }
  }

  /** A dict built from key-value pairs: a later key overrides an earlier one. */
  function ToDict(pairs: seq<(string, string)>): map<string, string>
  {
    if pairs == [] then map[]
    else ToDict(pairs[..|pairs| - 1])[pairs[|pairs| - 1].0 := pairs[|pairs| - 1].1]
  }

  /** A key is in the dict exactly when some pair names it, and it holds the value of the last such pair. */
  lemma {:induction false} ToDictLast(pairs: seq<(string, string)>, i: nat)
    requires i < |pairs|
    requires forall j :: i < j < |pairs| ==> pairs[j].0 != pairs[i].0
    ensures pairs[i].0 in ToDict(pairs) && ToDict(pairs)[pairs[i].0] == pairs[i].1
  {
    var n := |pairs| - 1;
    if i < n {
      assert pairs[..n][i] == pairs[i];
      ToDictLast(pairs[..n], i);
    }
  }

  lemma {:induction false} ToDictKeys(pairs: seq<(string, string)>, k: string)
    ensures k in ToDict(pairs) <==> exists i :: 0 <= i < |pairs| && pairs[i].0 == k
  {
    if pairs != [] {
      var n := |pairs| - 1;
      ToDictKeys(pairs[..n], k);
      assert forall i :: 0 <= i < n ==> pairs[..n][i] == pairs[i];
    }
  }

  /** The segments `filter(None, ...)` keeps: the non-empty ones. */
  function Segments(attributes: string): seq<string>
  {
    Seqs.Filter(Split(Strip(attributes), ';'), (p: string) => p != [])
  }

  /** `parse_attrs(attributes)`: the `key=value` entries of a `;`-separated description, as a dict. */
  function ParseAttrs(attributes: string): (r: Result<map<string, string>, MapError>)
    ensures r.Failure? <==> exists p :: p in Segments(attributes) && '=' !in Strip(p)
    ensures r.Failure? ==> r.error == IndexError
  {
    var segments := Segments(attributes);
    EntriesRefused(segments);
    var entries := Entries(segments);
    if entries.Failure? then Failure(entries.error) else Success(ToDict(entries.value))
  }

  /** A part of a description that `strip()` leaves alone and that holds no separator. */
  predicate Clean(s: string)
  {
    && (s == [] || (!IsSpace(s[0]) && !IsSpace(s[|s| - 1])))
    && ';' !in s
  }

  /** The text of one entry. */
  function Render(kv: (string, string)): string
  {
    kv.0 + "=" + kv.1
  }

  function Renders(pairs: seq<(string, string)>): (r: seq<string>)
    ensures |r| == |pairs|
    ensures forall i :: 0 <= i < |r| ==> r[i] == Render(pairs[i])
  {
    seq(|pairs|, i requires 0 <= i < |pairs| => Render(pairs[i]))
  }

  /** An entry starts with its key or `=` and ends with its value or `=`: `strip()` leaves it alone. */
  lemma RenderEnds(k: string, v: string)
    requires Clean(k) && Clean(v)
    ensures var s := k + ['='] + v; s != [] && !IsSpace(s[0]) && !IsSpace(s[|s| - 1]) && ';' !in s
  {
    var s := k + ['='] + v;
    if k != [] {
      assert s[0] == k[0];
    } else {
      assert s[0] == '=';
    }
    if v != [] {
      assert s[|s| - 1] == v[|v| - 1];
    } else {
      assert s[|s| - 1] == '=';
    }
  }

  /** An entry whose key has no `=` splits back into its key and value. */
  lemma RenderSplit(k: string, v: string)
    requires '=' !in k
    ensures SplitFirst(k + ['='] + v, '=') == Some((k, v))
  {
    var s := k + ['='] + v;
    FindCharAfterFree(k, '=', v);
    assert s[..|k|] == k && s[|k| + 1..] == v;
  }

  lemma RenderEntry(kv: (string, string))
    requires Clean(kv.0) && Clean(kv.1) && '=' !in kv.0
    ensures Entry(Render(kv)) == Success(kv)
    ensures Render(kv) != [] && !IsSpace(Render(kv)[0]) && !IsSpace(Render(kv)[|Render(kv)| - 1])
    ensures ';' !in Render(kv)
  {
    var (k, v) := kv;
    assert Render(kv) == k + ['='] + v;
    RenderEnds(k, v);
    RenderSplit(k, v);
    StripNoSpace(k + ['='] + v);
    StripNoSpace(k);
    StripNoSpace(v);
  }

  lemma EntriesRenders(pairs: seq<(string, string)>)
    requires forall i :: 0 <= i < |pairs| ==> Clean(pairs[i].0) && Clean(pairs[i].1) && '=' !in pairs[i].0
    ensures Entries(Renders(pairs)) == Success(pairs)
  {
    var params := Renders(pairs);
    var rs := seq(|params|, i requires 0 <= i < |params| => Entry(params[i]));
    forall i | 0 <= i < |pairs|
      ensures rs[i] == Success(pairs[i])
    {
      RenderEntry(pairs[i]);
    }
    assert Collect(rs).value == pairs;
  }

  /**
   * A description written as `k1=v1;k2=v2;...`, with keys free of `=` and
   * no part carrying `;` or surrounding whitespace, parses back into the
   * dict of its pairs, later keys overriding earlier ones.
   */
  lemma ParseAttrsRoundTrip(pairs: seq<(string, string)>)
    requires |pairs| >= 1
    requires forall i :: 0 <= i < |pairs| ==> Clean(pairs[i].0) && Clean(pairs[i].1) && '=' !in pairs[i].0
    ensures ParseAttrs(Join(Renders(pairs), ";")) == Success(ToDict(pairs))
  {
    var parts := Renders(pairs);
    RendersShape(pairs);
    SegmentsOfJoin(parts);
    assert Segments(Join(parts, ";")) == parts;
    EntriesRenders(pairs);
    assert Entries(parts) == Success(pairs);
  }

  lemma RendersShape(pairs: seq<(string, string)>)
    requires forall i :: 0 <= i < |pairs| ==> Clean(pairs[i].0) && Clean(pairs[i].1)
    ensures var parts := Renders(pairs);
      forall i :: 0 <= i < |parts| ==> parts[i] != [] && !IsSpace(parts[i][0]) && !IsSpace(parts[i][|parts[i]| - 1]) && ';' !in parts[i]
  {
    var parts := Renders(pairs);
    forall i | 0 <= i < |parts|
      ensures parts[i] != [] && !IsSpace(parts[i][0]) && !IsSpace(parts[i][|parts[i]| - 1]) && ';' !in parts[i]
    {
      assert parts[i] == pairs[i].0 + ['='] + pairs[i].1;
      RenderEnds(pairs[i].0, pairs[i].1);
    }
  }

  /** The non-empty segments of a join of non-empty, separator-free parts that `strip()` leaves alone are the parts. */
  lemma SegmentsOfJoin(parts: seq<string>)
    requires |parts| >= 1
    requires forall i :: 0 <= i < |parts| ==> parts[i] != [] && ';' !in parts[i]
    requires !IsSpace(parts[0][0]) && !IsSpace(parts[|parts| - 1][|parts[|parts| - 1]| - 1])
    ensures Segments(Join(parts, ";")) == parts
  {
    var text := Join(parts, ";");
    JoinEnds(parts, ";");
    StripNoSpace(text);
    SplitJoin(parts, ';');
    Seqs.FilterAll(parts, (p: string) => p != []);
  }

  /** A join starts with its first part and ends with its last one. */
  lemma {:induction false} JoinEnds(parts: seq<string>, sep: string)
    requires |parts| >= 1 && forall i :: 0 <= i < |parts| ==> parts[i] != []
    ensures var s := Join(parts, sep); s != [] && s[0] == parts[0][0] && s[|s| - 1] == parts[|parts| - 1][|parts[|parts| - 1]| - 1]
  {
    if |parts| > 1 {
      JoinEnds(parts[1..], sep);
    }
  }

  /** A description made only of separators and blanks is an empty dict. */
  lemma ParseAttrsEmpty()
    ensures ParseAttrs("") == Success(map[])
    ensures ParseAttrs(";") == Success(map[])
  {
    assert Split("", ';') == [""];
    assert Strip(";") == ";" by {
      StripNoSpace(";");
    }
    assert Split(";", ';') == ["", ""] by {
      assert FindChar(";", ';') == 0;
      assert ";"[1..] == "";
    }
  }

  // ---------------------------------------------------------------- os.path.splitext

  /** `rfind`: the index of the last `c`, -1 when there is none. */
  function RFind(s: string, c: char): (k: int)
    ensures -1 <= k < |s|
    ensures k == -1 <==> c !in s
    ensures k >= 0 ==> s[k] == c && forall j :: k < j < |s| ==> s[j] != c
  {
    if s == [] then -1
    else if s[|s| - 1] == c then |s| - 1
    else
      assert s == s[..|s| - 1] + [s[|s| - 1]];
      RFind(s[..|s| - 1], c)
  }

  /** `os.path.splitext(p)[0]`: `p` without its extension, the last `.` of the last path component not made only of dots before it. */
  function SplitextRoot(p: string): (r: string)
    ensures |r| <= |p| && r == p[..|r|]
    ensures r != p ==> p[|r|] == '.' && '.' !in p[|r| + 1..] && '/' !in p[|r| + 1..]
  {
    var sep := RFind(p, '/');
    var dot := RFind(p, '.');
    if dot > sep && exists i :: sep + 1 <= i < dot && p[i] != '.' then
      assert '/' !in p[dot + 1..] by {
        if sep >= 0 {
          assert p[dot + 1..] == p[sep + 1..][dot - sep..];
        }
      }
      p[..dot]
    else p
  }

  /** A file name with an extension loses exactly its extension. */
  lemma SplitextOf(stem: string, ext: string)
    requires stem != [] && stem[0] != '.' && '/' !in stem
    requires '.' !in ext && '/' !in ext
    ensures SplitextRoot(stem + "." + ext) == stem
  {
    var p := stem + "." + ext;
    assert p[|stem|] == '.';
    assert p[|stem| + 1..] == ext;
    assert RFind(p, '.') == |stem|;
    assert '/' !in p by {
      forall i | 0 <= i < |p|
        ensures p[i] != '/'
      {
        if i < |stem| {
          assert p[i] == stem[i];
        } else if i > |stem| {
          assert p[i] == ext[i - |stem| - 1];
        }
      }
    }
    assert p[0] == stem[0];
    assert p[..|stem|] == stem;
  }

  // ---------------------------------------------------------------- the SVG tree

  /**
   * An SVG element: its namespaced tag, its inkscape label (empty when the
   * attribute is missing or empty), the text of its first `svg:desc` child
   * (empty when there is none or it is empty), and its child elements.
   */
  datatype Element = Element(tag: string, inkscapeLabel: string, desc: string, children: seq<Element>)

  /** A capture zone; its bounds are left out. */
  datatype Base = Base(name: Option<string>, factionIndex: Option<int>, capturable: bool)

  /**
   * The parsed map. Capture zones, soldier spawn points (counted) and
   * vehicle spawn points (their types) are keyed by game type and group id.
   */
  datatype MapData = MapData(
    name: Option<string>, description: Option<string>,
    captureZones: map<(string, string), seq<Base>>,
    soldiers: map<(string, string), nat>,
    vehicles: map<(string, string), seq<Option<string>>>)

  const EmptyMapData := MapData(None, None, map[], map[], map[])

  /** Every group list or count of `data` is still there in `d`: the parser never drops one. */
  predicate KeepsGroups(data: MapData, d: MapData)
  {
    && data.captureZones.Keys <= d.captureZones.Keys
    && data.soldiers.Keys <= d.soldiers.Keys
    && data.vehicles.Keys <= d.vehicles.Keys
  }

  /** `attrs[k] if k in attrs else None`. */
  function Get(attrs: map<string, string>, k: string): (r: Option<string>)
    ensures r.Some? <==> k in attrs
    ensures r.Some? ==> r.value == attrs[k]
  {
    if k in attrs then Some(attrs[k]) else None
  }

  /** How `parse` handles a group after its label. */
  datatype GroupKind =
    | Ignored
    | MaterialsGroup
    | BasesGroup(groupId: string, gameType: string)
    | LayerGroup(groupId: string, gameType: string)
    | OtherGroup

  /** `parse`'s dispatch: no label, `materials`, `bases<...>.<type>`, `layer<...>.<type>`, anything else. */
  function GroupKindOf(groupLabel: string): (k: GroupKind)
    ensures k.Ignored? <==> groupLabel == []
    ensures k.MaterialsGroup? <==> groupLabel == "materials"
    ensures k.BasesGroup? <==> StartsWith(groupLabel, "bases") && '.' in groupLabel
    ensures k.LayerGroup? <==> !StartsWith(groupLabel, "bases") && StartsWith(groupLabel, "layer") && '.' in groupLabel
    ensures (k.BasesGroup? || k.LayerGroup?) ==> '.' !in k.groupId && groupLabel == k.groupId + "." + k.gameType
  {
    if groupLabel == [] then Ignored
    else if groupLabel == "materials" then MaterialsGroup
    else if StartsWith(groupLabel, "bases") && '.' in groupLabel then
      var parts := SplitFirst(groupLabel, '.').value;
      BasesGroup(parts.0, parts.1)
    else if StartsWith(groupLabel, "layer") && '.' in groupLabel then
      var parts := SplitFirst(groupLabel, '.').value;
      LayerGroup(parts.0, parts.1)
    else OtherGroup
  }

  /** The group id is the part of the groupLabel before its first dot, the game type everything after it. */
  lemma GroupKindOfLabel(groupId: string, gameType: string)
    requires StartsWith(groupId, "bases") && '.' !in groupId
    ensures GroupKindOf(groupId + "." + gameType) == BasesGroup(groupId, gameType)
  {
    var groupLabel := groupId + "." + gameType;
    assert groupLabel == groupId + ['.'] + gameType;
    FindCharAfterFree(groupId, '.', gameType);
    assert groupLabel[..|groupId|] == groupId && groupLabel[|groupId| + 1..] == gameType;
    assert groupLabel[..5] == groupId[..5];
  }

  // ---------------------------------------------------------------- materials

  /** `_parse_general_map_info_element`: name and description from the description, `None` where absent. */
  function GeneralInfo(data: MapData, desc: string): (r: (MapData, Option<MapError>))
    ensures r.0 == data.(name := r.0.name, description := r.0.description)
    ensures r.1.Some? ==> r.1 == Some(IndexError)
  {
    if desc == [] then (data, None)
    else
      match ParseAttrs(desc)
      case Failure(e) => (data, Some(e))
      case Success(attrs) => (data.(name := Get(attrs, "name"), description := Get(attrs, "description")), None)
  }

  /** `_parse_materials_group`: the `#general` elements among the group's labelled children. */
  function MaterialsFrom(data: MapData, elements: seq<Element>): (r: (MapData, Option<MapError>))
    ensures r.0 == data.(name := r.0.name, description := r.0.description)
    ensures r.1.Some? ==> r.1 == Some(IndexError)
    decreases |elements|
  {
    if elements == [] then (data, None)
    else if elements[0].inkscapeLabel == "#general" then
      var r := GeneralInfo(data, elements[0].desc);
      if r.1.Some? then r else MaterialsFrom(r.0, elements[1..])
    else MaterialsFrom(data, elements[1..])
  }

  // ---------------------------------------------------------------- bases

  /** The capture zone a description describes: `faction_index` read with `int()`, `capturable` true unless given as anything but `'1'`. */
  function BaseOf(attrs: map<string, string>): (r: Result<Base, MapError>)
    ensures r.Failure? <==> "faction_index" in attrs && ParseInt(attrs["faction_index"]).None?
    ensures r.Success? ==> r.value.name == Get(attrs, "name")
    ensures r.Success? ==> (r.value.factionIndex.None? <==> "faction_index" !in attrs)
    ensures r.Success? && "faction_index" in attrs ==> r.value.factionIndex == ParseInt(attrs["faction_index"])
    ensures r.Success? ==> (r.value.capturable <==> "capturable" !in attrs || attrs["capturable"] == "1")
  {
    var faction := if "faction_index" in attrs then ParseInt(attrs["faction_index"]) else None;
    if "faction_index" in attrs && faction.None? then Failure(ValueError)
    else Success(Base(Get(attrs, "name"), faction, if "capturable" in attrs then attrs["capturable"] == "1" else true))
  }

  /** The group's capture-zone list exists, possibly empty. */
  function WithZone(data: MapData, key: (string, string)): (d: MapData)
    ensures key in d.captureZones
  {
    if key in data.captureZones then data else data.(captureZones := data.captureZones[key := []])
  }

  /** The capture zone a described rectangle adds, or the exception its description raises. */
  function DescribedBase(desc: string): (r: Result<Base, MapError>)
    ensures r.Failure? ==> r.error == IndexError || r.error == ValueError
  {
    var attrs := ParseAttrs(desc);
    if attrs.Failure? then Failure(attrs.error) else BaseOf(attrs.value)
  }

  /** The outcomes of the `svg:rect` children that have a description, in order. */
  function BasesOf(elements: seq<Element>): seq<Result<Base, MapError>>
  {
    if elements == [] then []
    else if elements[0].tag != SvgRect || elements[0].desc == [] then BasesOf(elements[1..])
    else [DescribedBase(elements[0].desc)] + BasesOf(elements[1..])
  }

  /** A refused capture zone raises `IndexError` or `ValueError`. */
  lemma {:induction false} BasesOfErrors(elements: seq<Element>)
    ensures forall b :: b in BasesOf(elements) && b.Failure? ==> b.error == IndexError || b.error == ValueError
  {
    if elements != [] {
      var rest := BasesOf(elements[1..]);
      BasesOfErrors(elements[1..]);
      if elements[0].tag == SvgRect && elements[0].desc != [] {
        var head := DescribedBase(elements[0].desc);
        assert BasesOf(elements) == [head] + rest;
      }
    }
  }

  /** Appends the capture zones to the group's list, up to the first exception. */
  function AddZones(data: MapData, key: (string, string), bases: seq<Result<Base, MapError>>): (r: (MapData, Option<MapError>))
    requires key in data.captureZones
    ensures key in r.0.captureZones
    ensures r.1.Some? ==> Failure(r.1.value) in bases
    decreases |bases|
  {
    if bases == [] then (data, None)
    else if bases[0].Failure? then (data, Some(bases[0].error))
    else AddZones(data.(captureZones := data.captureZones[key := data.captureZones[key] + [bases[0].value]]), key, bases[1..])
  }

  /** `AddZones` over the bases of the elements from `i` on: the element at `i` first, then the rest. */
  lemma BasesStep(data: MapData, key: (string, string), elements: seq<Element>, i: nat)
    requires key in data.captureZones && i < |elements|
    ensures var e := elements[i];
      AddZones(data, key, BasesOf(elements[i..])) ==
        if e.tag != SvgRect || e.desc == [] then AddZones(data, key, BasesOf(elements[i + 1..]))
        else match DescribedBase(e.desc)
          case Failure(err) => (data, Some(err))
          case Success(b) => AddZones(data.(captureZones := data.captureZones[key := data.captureZones[key] + [b]]), key, BasesOf(elements[i + 1..]))
  {
    assert elements[i..][1..] == elements[i + 1..];
    var e := elements[i];
    if e.tag == SvgRect && e.desc != [] {
      assert ([DescribedBase(e.desc)] + BasesOf(elements[i + 1..]))[1..] == BasesOf(elements[i + 1..]);
    }
  }

  /** `_parse_bases_group`'s loop. */
  function BasesFrom(data: MapData, key: (string, string), elements: seq<Element>): (r: (MapData, Option<MapError>))
    requires key in data.captureZones
    ensures r.0 == data.(captureZones := r.0.captureZones) && r.0.captureZones.Keys == data.captureZones.Keys
    ensures r.1.Some? ==> r.1 == Some(IndexError) || r.1 == Some(ValueError)
  {
    AddZonesAppends(data, key, BasesOf(elements));
    BasesOfErrors(elements);
    AddZones(data, key, BasesOf(elements))
  }

  /**
   * Capture zones are only appended to the group's own list: every other
   * list, and everything else in the data, is left as it was; without an
   * exception every outcome is appended.
   */
  lemma {:induction false} AddZonesAppends(data: MapData, key: (string, string), bases: seq<Result<Base, MapError>>)
    requires key in data.captureZones
    ensures var d := AddZones(data, key, bases).0;
      && d == data.(captureZones := d.captureZones)
      && d.captureZones.Keys == data.captureZones.Keys
      && (forall k :: k in data.captureZones && k != key ==> d.captureZones[k] == data.captureZones[k])
      && |data.captureZones[key]| <= |d.captureZones[key]|
      && d.captureZones[key][..|data.captureZones[key]|] == data.captureZones[key]
    ensures AddZones(data, key, bases).1.None? ==>
      |AddZones(data, key, bases).0.captureZones[key]| == |data.captureZones[key]| + |bases|
    decreases |bases|
  {
    if bases != [] && bases[0].Success? {
      var zones := data.captureZones[key] + [bases[0].value];
      var next := data.(captureZones := data.captureZones[key := zones]);
      AddZonesAppends(next, key, bases[1..]);
      var d := AddZones(next, key, bases[1..]).0;
      assert d.captureZones[key][..|zones|][..|data.captureZones[key]|] == data.captureZones[key];
    }
  }

  /** The error of a bases group is the first exception among its described rectangles. */
  lemma {:induction false} AddZonesError(data: MapData, key: (string, string), bases: seq<Result<Base, MapError>>)
    requires key in data.captureZones
    ensures AddZones(data, key, bases).1.None? <==> forall i :: 0 <= i < |bases| ==> bases[i].Success?
    decreases |bases|
  {
    if bases != [] && bases[0].Success? {
      var next := data.(captureZones := data.captureZones[key := data.captureZones[key] + [bases[0].value]]);
      AddZonesError(next, key, bases[1..]);
      assert forall i :: 1 <= i < |bases| ==> bases[i] == bases[1..][i - 1];
    }
  }

  /** Rectangles without a description, and children that are not rectangles, add nothing. */
  lemma BasesSkipped(data: MapData, key: (string, string), e: Element, rest: seq<Element>)
    requires key in data.captureZones
    requires e.tag != SvgRect || e.desc == []
    ensures BasesFrom(data, key, [e] + rest) == BasesFrom(data, key, rest)
  {
    assert ([e] + rest)[1..] == rest;
    assert BasesOf([e] + rest) == BasesOf(rest);
  }

  // ---------------------------------------------------------------- layers

  /** `_parse_layer_group_spawnpoints`: one soldier spawn point per `svg:rect` child. */
  function SpawnCount(elements: seq<Element>): (n: nat)
    ensures n <= |elements|
  {
    Seqs.Count(elements, (e: Element) => e.tag == SvgRect)
  }

  /** A `spawnpoints` layer adds its rectangles to the group's soldier count. */
  lemma SpawnpointsLayer(data: MapData, key: (string, string), elements: seq<Element>)
    ensures var d := WithSoldiers(data, key);
      LayerStep(data, key, Element(SvgG, "spawnpoints", "", elements)).0 == d.(soldiers := d.soldiers[key := d.soldiers[key] + SpawnCount(elements)])
  {
  }

  lemma SpawnCountStep(elements: seq<Element>, i: nat)
    requires i < |elements|
    ensures SpawnCount(elements[i..]) == (if elements[i].tag == SvgRect then 1 else 0) + SpawnCount(elements[i + 1..])
  {
    assert elements[i..][1..] == elements[i + 1..];
  }

  /**
   * The vehicle type of a described rectangle: the `key` without its file
   * extension, else the `tag`, else `None`.
   */
  function VehicleType(attrs: map<string, string>): (r: Option<string>)
    ensures "key" in attrs ==> r == Some(SplitextRoot(attrs["key"]))
    ensures "key" !in attrs ==> r == Get(attrs, "tag")
  {
    if "key" in attrs then Some(SplitextRoot(attrs["key"]))
    else if "tag" in attrs then Some(attrs["tag"])
    else None
  }

  /**
   * `_parse_layer_group_vehicles` as written: `vehicle_type` is a local
   * that only the `key` and `tag` branches assign, so a rectangle naming
   * neither gets the type of the previous rectangle of the layer, or raises
   * when it is the first.
   */
  function VehicleTypesAsWritten(descriptions: seq<map<string, string>>, previous: Option<string>)
    : (r: Result<seq<string>, MapError>)
    ensures r.Success? ==> |r.value| == |descriptions|
  {
    if descriptions == [] then Success([])
    else
      var attrs := descriptions[0];
      var t := if "key" in attrs then Some(SplitextRoot(attrs["key"]))
               else if "tag" in attrs then Some(attrs["tag"])
               else previous;
      if t.None? then Failure(UnboundLocalError)
      else
        match VehicleTypesAsWritten(descriptions[1..], t)
        case Failure(e) => Failure(e)
        case Success(rest) => Success([t.value] + rest)
  }

  /**
   * A rectangle that names neither a key nor a tag inherits the type of
   * the rectangle before it, or raises when it comes first; the corrected
   * reading gives it no type.
   */
  lemma StaleVehicleType(first: map<string, string>, second: map<string, string>)
    requires "key" in first
    requires "key" !in second && "tag" !in second
    ensures var t := SplitextRoot(first["key"]);
      VehicleTypesAsWritten([first, second], None) == Success([t, t])
    ensures VehicleTypesAsWritten([second], None) == Failure(UnboundLocalError)
    ensures VehicleType(second) == None
  {
    var t := SplitextRoot(first["key"]);
    assert [second][1..] == [];
    assert VehicleTypesAsWritten([], Some(t)) == Success([]);
    assert [second][0] == second;
    assert VehicleTypesAsWritten([second], Some(t)) == Success([t] + []);
    assert [t] + [] == [t];
    assert [first, second][1..] == [second];
    assert [first, second][0] == first;
    assert VehicleTypesAsWritten([first, second], None) == Success([t] + [t]);
    assert [t] + [t] == [t, t];
  }

  /** What `parse_attrs` makes of the description of each `svg:rect` child that has one, in order. */
  function AttrsOf(elements: seq<Element>): seq<Result<map<string, string>, MapError>>
  {
    if elements == [] then []
    else if elements[0].tag != SvgRect || elements[0].desc == [] then AttrsOf(elements[1..])
    else [ParseAttrs(elements[0].desc)] + AttrsOf(elements[1..])
  }

  /** A refused description of a vehicle spawn point raises `IndexError`. */
  lemma {:induction false} AttrsOfErrors(elements: seq<Element>)
    ensures forall a :: a in AttrsOf(elements) && a.Failure? ==> a.error == IndexError
  {
    if elements != [] {
      var rest := AttrsOf(elements[1..]);
      AttrsOfErrors(elements[1..]);
      if elements[0].tag == SvgRect && elements[0].desc != [] {
        var head := ParseAttrs(elements[0].desc);
        assert AttrsOf(elements) == [head] + rest;
      }
    }
  }

  /** The index of the first refused description, or the number of descriptions when none is refused. */
  function FirstRefused(parsed: seq<Result<map<string, string>, MapError>>): (k: nat)
    ensures k <= |parsed|
    ensures forall i :: 0 <= i < k ==> parsed[i].Success?
    ensures k < |parsed| ==> parsed[k].Failure?
  {
    if parsed == [] then 0
    else if parsed[0].Failure? then 0
    else
      var k := FirstRefused(parsed[1..]);
      assert forall i :: 1 <= i < k + 1 ==> parsed[i] == parsed[1..][i - 1];
      k + 1
  }

  /** The vehicle types of the parsed descriptions before the first refused one. */
  function Appended(parsed: seq<Result<map<string, string>, MapError>>): (r: seq<Option<string>>)
    ensures |r| == FirstRefused(parsed)
    ensures forall i :: 0 <= i < |r| ==> parsed[i].Success? && r[i] == VehicleType(parsed[i].value)
  {
    if parsed == [] || parsed[0].Failure? then []
    else
      var rest := Appended(parsed[1..]);
      assert forall i :: 1 <= i < |rest| + 1 ==> parsed[i] == parsed[1..][i - 1];
      [VehicleType(parsed[0].value)] + rest
  }

  /** Appends the vehicle type of each parsed description to the group's list, up to the first refused one. */
  function AddTypes(data: MapData, key: (string, string), parsed: seq<Result<map<string, string>, MapError>>): (MapData, Option<MapError>)
    requires key in data.vehicles
    decreases |parsed|
  {
    if parsed == [] then (data, None)
    else if parsed[0].Failure? then (data, Some(parsed[0].error))
    else AddTypes(data.(vehicles := data.vehicles[key := data.vehicles[key] + [VehicleType(parsed[0].value)]]), key, parsed[1..])
  }

  /** `_parse_layer_group_vehicles`'s loop, with a rectangle that names neither `key` nor `tag` left without a type. */
  function VehiclesFrom(data: MapData, key: (string, string), elements: seq<Element>): (r: (MapData, Option<MapError>))
    requires key in data.vehicles
    ensures r.0 == data.(vehicles := r.0.vehicles) && r.0.vehicles.Keys == data.vehicles.Keys
    ensures r.1.Some? ==> r.1 == Some(IndexError)
  {
    AddTypesData(data, key, AttrsOf(elements));
    AddTypesError(data, key, AttrsOf(elements));
    AttrsOfErrors(elements);
    AddTypes(data, key, AttrsOf(elements))
  }

  /** Only the group's own list changes: it grows by the types before the first refusal. */
  lemma {:induction false} AddTypesData(data: MapData, key: (string, string), parsed: seq<Result<map<string, string>, MapError>>)
    requires key in data.vehicles
    ensures AddTypes(data, key, parsed).0 == data.(vehicles := data.vehicles[key := data.vehicles[key] + Appended(parsed)])
    decreases |parsed|
  {
    if parsed == [] || parsed[0].Failure? {
      assert data.vehicles[key] + [] == data.vehicles[key];
      assert data.vehicles[key := data.vehicles[key]] == data.vehicles;
    } else {
      var t := VehicleType(parsed[0].value);
      var next := data.(vehicles := data.vehicles[key := data.vehicles[key] + [t]]);
      var rest := Appended(parsed[1..]);
      AddTypesData(next, key, parsed[1..]);
      AppendTwice(data.vehicles, key, [t], rest);
    }
  }

  lemma AppendTwice(m: map<(string, string), seq<Option<string>>>, key: (string, string), a: seq<Option<string>>, b: seq<Option<string>>)
    requires key in m
    ensures m[key := m[key] + a][key := m[key] + a + b] == m[key := m[key] + (a + b)]
  {
    assert m[key] + a + b == m[key] + (a + b);
  }

  /** No exception exactly when no description is refused; otherwise the first refusal's. */
  lemma {:induction false} AddTypesError(data: MapData, key: (string, string), parsed: seq<Result<map<string, string>, MapError>>)
    requires key in data.vehicles
    ensures var err := AddTypes(data, key, parsed).1;
      && (err.None? <==> FirstRefused(parsed) == |parsed|)
      && (err.Some? ==> parsed[FirstRefused(parsed)] == Failure(err.value))
    decreases |parsed|
  {
    if parsed != [] && parsed[0].Success? {
      var next := data.(vehicles := data.vehicles[key := data.vehicles[key] + [VehicleType(parsed[0].value)]]);
      AddTypesError(next, key, parsed[1..]);
      assert parsed[1..][FirstRefused(parsed[1..])..] == parsed[FirstRefused(parsed)..];
    }
  }

  /**
   * A vehicles layer only appends to its own group's list: one type per
   * described rectangle, in order, up to the first description that
   * `parse_attrs` refuses, whose exception is the outcome; everything
   * else in the data is left as it was.
   */
  lemma VehiclesFromSpec(data: MapData, key: (string, string), elements: seq<Element>)
    requires key in data.vehicles
    ensures var parsed := AttrsOf(elements);
      var r := VehiclesFrom(data, key, elements);
      && r.0 == data.(vehicles := data.vehicles[key := data.vehicles[key] + Appended(parsed)])
      && (r.1.None? <==> FirstRefused(parsed) == |parsed|)
      && (r.1.Some? ==> parsed[FirstRefused(parsed)] == Failure(r.1.value))
  {
    AddTypesData(data, key, AttrsOf(elements));
    AddTypesError(data, key, AttrsOf(elements));
  }

  /** `VehiclesFrom` over the elements from `i` on: the element at `i` first, then the rest. */
  lemma VehiclesStep(data: MapData, key: (string, string), elements: seq<Element>, i: nat)
    requires key in data.vehicles && i < |elements|
    ensures var e := elements[i];
      VehiclesFrom(data, key, elements[i..]) ==
        if e.tag != SvgRect || e.desc == [] then VehiclesFrom(data, key, elements[i + 1..])
        else match ParseAttrs(e.desc)
          case Failure(err) => (data, Some(err))
          case Success(attrs) => VehiclesFrom(data.(vehicles := data.vehicles[key := data.vehicles[key] + [VehicleType(attrs)]]), key, elements[i + 1..])
  {
    assert elements[i..][1..] == elements[i + 1..];
    var e := elements[i];
    if e.tag == SvgRect && e.desc != [] {
      assert ([ParseAttrs(e.desc)] + AttrsOf(elements[i + 1..]))[1..] == AttrsOf(elements[i + 1..]);
    }
  }

  /** The loop of `_parse_layer_group_vehicles` over the group's list of an already created group. */
  method AddVehicles(data: MapData, key: (string, string), elements: seq<Element>) returns (d: MapData, err: Option<MapError>)
    requires key in data.vehicles
    ensures (d, err) == VehiclesFrom(data, key, elements)
  {
    d := data;
    assert elements[0..] == elements;
    var i := 0;
    while i < |elements|
      invariant 0 <= i <= |elements|
      invariant key in d.vehicles
      invariant VehiclesFrom(d, key, elements[i..]) == VehiclesFrom(data, key, elements)
    {
      var e;
      d, e := AddVehicle(d, key, elements, i);
      if e.Some? {
        return d, e;
      }
      i := i + 1;
    }
    assert elements[|elements|..] == [];
    return d, None;
  }

  /** One element of that loop: a described rectangle appends its type or raises. */
  method AddVehicle(d: MapData, key: (string, string), elements: seq<Element>, i: nat) returns (d': MapData, err: Option<MapError>)
    requires key in d.vehicles && i < |elements|
    ensures key in d'.vehicles
    ensures err.Some? ==> VehiclesFrom(d, key, elements[i..]) == (d', err)
    ensures err.None? ==> VehiclesFrom(d, key, elements[i..]) == VehiclesFrom(d', key, elements[i + 1..])
  {
    VehiclesStep(d, key, elements, i);
    d', err := d, None;
    var e := elements[i];
    if e.tag == SvgRect && e.desc != [] {
      var attrs := ParseAttrs(e.desc);
      if attrs.Failure? {
        return d, Some(attrs.error);
      }
      var t := VehicleType(attrs.value);
      d' := d.(vehicles := d.vehicles[key := d.vehicles[key] + [t]]);
    }
  }

  /** The loop of `_parse_bases_group`, on the data it updates. */
  method AddBases(data: MapData, key: (string, string), elements: seq<Element>) returns (d: MapData, err: Option<MapError>)
    requires key in data.captureZones
    ensures (d, err) == BasesFrom(data, key, elements)
  {
    d := data;
    assert elements[0..] == elements;
    var i := 0;
    while i < |elements|
      invariant 0 <= i <= |elements|
      invariant key in d.captureZones
      invariant AddZones(d, key, BasesOf(elements[i..])) == BasesFrom(data, key, elements)
    {
      var e;
      d, e := AddBase(d, key, elements, i);
      if e.Some? {
        return d, e;
      }
      i := i + 1;
    }
    assert elements[|elements|..] == [];
    return d, None;
  }

  /** One element of that loop: a described rectangle adds its capture zone or raises. */
  method AddBase(d: MapData, key: (string, string), elements: seq<Element>, i: nat) returns (d': MapData, err: Option<MapError>)
    requires key in d.captureZones && i < |elements|
    ensures key in d'.captureZones
    ensures err.Some? ==> AddZones(d, key, BasesOf(elements[i..])) == (d', err)
    ensures err.None? ==> AddZones(d, key, BasesOf(elements[i..])) == AddZones(d', key, BasesOf(elements[i + 1..]))
  {
    BasesStep(d, key, elements, i);
    d', err := d, None;
    var e := elements[i];
    if e.tag == SvgRect && e.desc != [] {
      var b := ParseBase(e.desc);
      if b.Failure? {
        return d, Some(b.error);
      }
      d' := d.(captureZones := d.captureZones[key := d.captureZones[key] + [b.value]]);
    }
  }

  /** One described rectangle of `_parse_bases_group`: its description parsed, then its fields read. */
  method ParseBase(desc: string) returns (b: Result<Base, MapError>)
    ensures b == DescribedBase(desc)
  {
    var attrs := ParseAttrs(desc);
    if attrs.Failure? {
      return Failure(attrs.error);
    }
    b := BaseOf(attrs.value);
  }

  /** The group's soldier count exists, possibly zero. */
  function WithSoldiers(data: MapData, key: (string, string)): (d: MapData)
    ensures key in d.soldiers
  {
    if key in data.soldiers then data else data.(soldiers := data.soldiers[key := 0])
  }

  /** The group's vehicle list exists, possibly empty. */
  function WithVehicles(data: MapData, key: (string, string)): (d: MapData)
    ensures key in d.vehicles
  {
    if key in data.vehicles then data else data.(vehicles := data.vehicles[key := []])
  }

  /** One layer of a layer group: `spawnpoints` and `vehicles` layers are read, any other is ignored. */
  function LayerStep(data: MapData, key: (string, string), layer: Element): (r: (MapData, Option<MapError>))
    ensures r.0 == data.(soldiers := r.0.soldiers, vehicles := r.0.vehicles) && KeepsGroups(data, r.0)
    ensures r.1.Some? ==> r.1 == Some(IndexError)
  {
    if layer.inkscapeLabel == "spawnpoints" then
      var d := WithSoldiers(data, key);
      (d.(soldiers := d.soldiers[key := d.soldiers[key] + SpawnCount(layer.children)]), None)
    else if layer.inkscapeLabel == "vehicles" then
      VehiclesFrom(WithVehicles(data, key), key, layer.children)
    else (data, None)
  }

  /** `_parse_layer_group`: the labelled `svg:g` children of a layer group. */
  function LayersFrom(data: MapData, key: (string, string), layers: seq<Element>): (r: (MapData, Option<MapError>))
    ensures r.0 == data.(soldiers := r.0.soldiers, vehicles := r.0.vehicles) && KeepsGroups(data, r.0)
    ensures r.1.Some? ==> r.1 == Some(IndexError)
    decreases |layers|
  {
    if layers == [] then (data, None)
    else if layers[0].tag != SvgG || layers[0].inkscapeLabel == [] then LayersFrom(data, key, layers[1..])
    else
      var r := LayerStep(data, key, layers[0]);
      if r.1.Some? then r else LayersFrom(r.0, key, layers[1..])
  }

  /** `LayersFrom` on the layers from `i` on: the layer at `i` first, then the rest. */
  lemma LayersFromStep(data: MapData, key: (string, string), layers: seq<Element>, i: nat)
    requires i < |layers|
    ensures LayersFrom(data, key, layers[i..]) ==
      if layers[i].tag != SvgG || layers[i].inkscapeLabel == [] then LayersFrom(data, key, layers[i + 1..])
      else if LayerStep(data, key, layers[i]).1.Some? then LayerStep(data, key, layers[i])
      else LayersFrom(LayerStep(data, key, layers[i]).0, key, layers[i + 1..])
  {
    assert layers[i..][1..] == layers[i + 1..];
  }

  // ---------------------------------------------------------------- parse

  /** One group of the root, after its label. */
  function GroupStep(data: MapData, group: Element): (r: (MapData, Option<MapError>))
    ensures KeepsGroups(data, r.0)
    ensures r.1.Some? ==> r.1 == Some(IndexError) || r.1 == Some(ValueError)
  {
    match GroupKindOf(group.inkscapeLabel)
    case MaterialsGroup => MaterialsFrom(data, group.children)
    case BasesGroup(groupId, gameType) =>
      BasesFrom(WithZone(data, (gameType, groupId)), (gameType, groupId), group.children)
    case LayerGroup(groupId, gameType) => LayersFrom(data, (gameType, groupId), group.children)
    case _ => (data, None)
  }

  /** `parse`: the `svg:g` children of the root, in order; the first exception stops the parse. */
  function GroupsFrom(data: MapData, groups: seq<Element>): (r: (MapData, Option<MapError>))
    ensures KeepsGroups(data, r.0)
    ensures r.1.Some? ==> r.1 == Some(IndexError) || r.1 == Some(ValueError)
    decreases |groups|
  {
    if groups == [] then (data, None)
    else if groups[0].tag != SvgG then GroupsFrom(data, groups[1..])
    else
      var r := GroupStep(data, groups[0]);
      if r.1.Some? then r else GroupsFrom(r.0, groups[1..])
  }

  /** Unlabelled elements of the materials group, and any not labelled `#general`, are skipped. */
  lemma MaterialsSkipped(data: MapData, e: Element, rest: seq<Element>)
    requires e.inkscapeLabel != "#general"
    ensures MaterialsFrom(data, [e] + rest) == MaterialsFrom(data, rest)
  {
    assert ([e] + rest)[1..] == rest;
  }

  /** Unlabelled layers, layers that are not `svg:g`, and layers other than spawnpoints and vehicles are skipped. */
  lemma LayersSkipped(data: MapData, key: (string, string), layer: Element, rest: seq<Element>)
    requires layer.tag != SvgG || layer.inkscapeLabel !in {"spawnpoints", "vehicles"}
    ensures LayersFrom(data, key, [layer] + rest) == LayersFrom(data, key, rest)
  {
    assert ([layer] + rest)[1..] == rest;
  }

  /** Unlabelled or unrecognised groups change nothing. */
  lemma IgnoredGroup(data: MapData, group: Element)
    requires GroupKindOf(group.inkscapeLabel).Ignored? || GroupKindOf(group.inkscapeLabel).OtherGroup?
    ensures GroupStep(data, group) == (data, None)
  {
  }

  /** A map without groups parses to the data it started from. */
  lemma NoGroups(data: MapData, elements: seq<Element>)
    requires forall i :: 0 <= i < |elements| ==> elements[i].tag != SvgG
    ensures GroupsFrom(data, elements) == (data, None)
  {
    if elements != [] {
      NoGroups(data, elements[1..]);
    }
  }

  /**
   * `MapObjectsParser`. `data` is the parse result that each `_parse_*`
   * method updates in place.
   */
  class MapObjectsParser {
    var data: MapData

    constructor ()
      ensures data == EmptyMapData
    {
      data := EmptyMapData;
    }

    /** `parse`: dispatch each `svg:g` child of the root on its label. */
    method Parse(root: seq<Element>) returns (err: Option<MapError>)
      modifies this
      ensures (data, err) == GroupsFrom(old(data), root)
    {
      var i := 0;
      while i < |root|
        invariant 0 <= i <= |root|
        invariant GroupsFrom(data, root[i..]) == GroupsFrom(old(data), root)
      {
        assert root[i..][1..] == root[i + 1..];
        var group := root[i];
        if group.tag == SvgG {
          var kind := GroupKindOf(group.inkscapeLabel);
          if kind.MaterialsGroup? {
            err := ParseMaterialsGroup(group.children);
          } else if kind.BasesGroup? {
            err := ParseBasesGroup(kind.groupId, kind.gameType, group.children);
          } else if kind.LayerGroup? {
            err := ParseLayerGroup(kind.groupId, kind.gameType, group.children);
          } else {
            err := None;
          }
          if err.Some? {
            return;
          }
        }
        i := i + 1;
      }
      err := None;
    }

    /** `_parse_materials_group`. */
    method ParseMaterialsGroup(elements: seq<Element>) returns (err: Option<MapError>)
      modifies this
      ensures (data, err) == MaterialsFrom(old(data), elements)
    {
      var i := 0;
      while i < |elements|
        invariant 0 <= i <= |elements|
        invariant MaterialsFrom(data, elements[i..]) == MaterialsFrom(old(data), elements)
      {
        assert elements[i..][1..] == elements[i + 1..];
        if elements[i].inkscapeLabel == "#general" {
          var r := GeneralInfo(data, elements[i].desc);
          data := r.0;
          if r.1.Some? {
            return r.1;
          }
        }
        i := i + 1;
      }
      return None;
    }

    /** `_parse_bases_group`. */
    method ParseBasesGroup(groupId: string, gameType: string, elements: seq<Element>) returns (err: Option<MapError>)
      modifies this
      ensures (data, err) == BasesFrom(WithZone(old(data), (gameType, groupId)), (gameType, groupId), elements)
    {
      var key := (gameType, groupId);
      var d := WithZone(data, key);
      d, err := AddBases(d, key, elements);
      data := d;
    }

    /** `_parse_layer_group`. */
    method ParseLayerGroup(groupId: string, gameType: string, layers: seq<Element>) returns (err: Option<MapError>)
      modifies this
      ensures (data, err) == LayersFrom(old(data), (gameType, groupId), layers)
    {
      var key := (gameType, groupId);
      var i := 0;
      while i < |layers|
        invariant 0 <= i <= |layers|
        invariant LayersFrom(data, key, layers[i..]) == LayersFrom(old(data), key, layers)
      {
        LayersFromStep(data, key, layers, i);
        var layer := layers[i];
        if layer.tag == SvgG && layer.inkscapeLabel != [] {
          err := ParseLayer(key, layer);
          if err.Some? {
            return;
          }
        }
        i := i + 1;
      }
      return None;
    }

    /** One labelled layer of `_parse_layer_group`: spawn points, vehicles, or nothing. */
    method ParseLayer(key: (string, string), layer: Element) returns (err: Option<MapError>)
      modifies this
      ensures (data, err) == LayerStep(old(data), key, layer)
    {
      err := None;
      if layer.inkscapeLabel == "spawnpoints" {
        ParseSpawnpoints(key, layer.children);
      } else if layer.inkscapeLabel == "vehicles" {
        err := ParseVehicles(key, layer.children);
      }
    }

    /** `_parse_layer_group_spawnpoints`. */
    method ParseSpawnpoints(key: (string, string), elements: seq<Element>)
      modifies this
      ensures var d := WithSoldiers(old(data), key); data == d.(soldiers := d.soldiers[key := d.soldiers[key] + SpawnCount(elements)])
    {
      var d := WithSoldiers(data, key);
      var count := d.soldiers[key];
      ghost var start := count;
      var i := 0;
      while i < |elements|
        invariant 0 <= i <= |elements|
        invariant count + SpawnCount(elements[i..]) == start + SpawnCount(elements)
      {
        SpawnCountStep(elements, i);
        if elements[i].tag == SvgRect {
          count := count + 1;
        }
        i := i + 1;
      }
      assert elements[|elements|..] == [];
      data := d.(soldiers := d.soldiers[key := count]);
    }

    /** `_parse_layer_group_vehicles`, with a rectangle that names neither `key` nor `tag` left without a type. */
    method ParseVehicles(key: (string, string), elements: seq<Element>) returns (err: Option<MapError>)
      modifies this
      ensures (data, err) == VehiclesFrom(WithVehicles(old(data), key), key, elements)
    {
      var d := WithVehicles(data, key);
      d, err := AddVehicles(d, key, elements);
      data := d;
    }
  }
}
