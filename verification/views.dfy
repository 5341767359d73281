/**
  The request helpers of `risks/views.py`: the context URL of a page, the
  access rule for owned analyses, the view parameters of the event layer,
  the selection of related analyses for an event and the `e_`/`r_` pairing
  of analysis types.
 */
module Views {
  import opened Base
  import opened Catalog
  import opened Features
  import Sorting

  // ---------------------------------------------------------------------
  // get_context_url
  // ---------------------------------------------------------------------

  /** `ContextAware.CONTEXT_KEYS`. */
  const ContextKeys: seq<string> := ["ht", "at", "an", "dym"]

  /** The keys walked with `_full`: application and location first. */
  const FullContextKeys: seq<string> := ["app", "loc"] + ContextKeys

  /** `kwargs.get(k)` is truthy: the argument is present and not empty. */
  predicate Given(kwargs: map<string, string>, k: string)
  {
    k in kwargs && kwargs[k] != ""
  }

  /** The walk over `keys` emits exactly `n` of them: the first `n` are given and the next is not. */
  predicate StopsAt(kwargs: map<string, string>, keys: seq<string>, n: int)
  {
    && 0 <= n <= |keys|
    && (forall i :: 0 <= i < n ==> Given(kwargs, keys[i]))
    && (n < |keys| ==> !Given(kwargs, keys[n]))
  }

  /** The key/value pairs the walk emits, in key order, up to the first key not given. */
  function ContextPairs(kwargs: map<string, string>, keys: seq<string>): (r: seq<(string, string)>)
    ensures StopsAt(kwargs, keys, |r|)
    ensures forall i :: 0 <= i < |r| ==> r[i] == (keys[i], kwargs[keys[i]])
  {
    if |keys| == 0 || !Given(kwargs, keys[0]) then []
    else
      var rest := ContextPairs(kwargs, keys[1..]);
      assert forall i :: 0 <= i < |rest| ==> keys[1..][i] == keys[i + 1];
      [(keys[0], kwargs[keys[0]])] + rest
  }

  /** `out.extend([k, v])` for every pair. */
  function Flatten(pairs: seq<(string, string)>): (r: seq<string>)
    ensures |r| == 2 * |pairs|
  {
    if |pairs| == 0 then [] else [pairs[0].0, pairs[0].1] + Flatten(pairs[1..])
  }

  lemma {:induction false} FlattenAppend(a: seq<(string, string)>, b: seq<(string, string)>)
    ensures Flatten(a + b) == Flatten(a) + Flatten(b)
  {
    if |a| > 0 {
      assert (a + b)[1..] == a[1..] + b;
      FlattenAppend(a[1..], b);
    } else {
      assert a + b == b;
    }
  }

  /**
    `get_context_url(**kwargs)`: the emitted pairs joined by `/` with a
    trailing `/`, or nothing when no pair is emitted.
   */
  function ContextUrl(kwargs: map<string, string>, full: bool): (r: Option<string>)
    ensures r.None? <==> !Given(kwargs, if full then "app" else "ht")
  {
    var keys := if full then FullContextKeys else ContextKeys;
    var out := Flatten(ContextPairs(kwargs, keys));
    if |out| == 0 then None else Some(Join("/", out) + "/")
  }

  /** When every key of `a` is given, the walk over `a + b` continues into `b`. */
  lemma {:induction false} ContextPairsAppend(kwargs: map<string, string>, a: seq<string>, b: seq<string>)
    requires forall i :: 0 <= i < |a| ==> Given(kwargs, a[i])
    ensures ContextPairs(kwargs, a + b) == ContextPairs(kwargs, a) + ContextPairs(kwargs, b)
  {
    if |a| > 0 {
      assert (a + b)[1..] == a[1..] + b;
      assert (a + b)[0] == a[0];
      ContextPairsAppend(kwargs, a[1..], b);
    } else {
      assert a + b == b;
    }
  }

  /** With `app` and `loc` given, the full walk is those two pairs followed by the plain walk. */
  lemma FullPairs(kwargs: map<string, string>)
    requires Given(kwargs, "app") && Given(kwargs, "loc")
    ensures ContextPairs(kwargs, FullContextKeys) ==
      [("app", kwargs["app"]), ("loc", kwargs["loc"])] + ContextPairs(kwargs, ContextKeys)
  {
    var head := ["app", "loc"];
    assert FullContextKeys == head + ContextKeys;
    ContextPairsAppend(kwargs, head, ContextKeys);
    assert head[1..] == ["loc"] && ["loc"][1..] == [];
  }

  /** With `app` given and `loc` not, the full walk emits the `app` pair alone. */
  lemma AppOnlyPairs(kwargs: map<string, string>)
    requires Given(kwargs, "app") && !Given(kwargs, "loc")
    ensures ContextPairs(kwargs, FullContextKeys) == [("app", kwargs["app"])]
  {
    assert FullContextKeys[1..][0] == "loc";
  }

  /** Flattening two pairs. */
  lemma FlattenTwo(a: (string, string), b: (string, string), rest: seq<(string, string)>)
    ensures Flatten([a, b] + rest) == [a.0, a.1, b.0, b.1] + Flatten(rest)
  {
    FlattenAppend([a, b], rest);
    assert [a, b][1..] == [b] && [b][1..] == [];
  }

  /** `'/'.join` of four parts. */
  lemma JoinFour(a: string, b: string, c: string, d: string)
    ensures Join("/", [a, b, c, d]) == a + "/" + b + "/" + c + "/" + d
  {
    assert [a, b, c, d][1..] == [b, c, d] && [b, c, d][1..] == [c, d] && [c, d][1..] == [d];
    assert Join("/", [c, d]) == c + "/" + d;
    assert Join("/", [b, c, d]) == b + "/" + (c + "/" + d);
    assert Join("/", [a, b, c, d]) == a + "/" + (b + "/" + (c + "/" + d));
  }

  lemma PathLiterals(app: string, loc: string)
    ensures "app" + "/" + app + "/" + "loc" + "/" + loc == "app/" + app + "/loc/" + loc
  {
    assert "app" + "/" == "app/";
    assert "/" + "loc" + "/" == "/loc/";
  }

  /** The path of the pairs `app` and `loc` in front of the path of `rest`. */
  lemma JoinPath(app: string, loc: string, rest: seq<string>)
    ensures Join("/", ["app", app, "loc", loc] + rest) + "/" ==
      "app/" + app + "/loc/" + loc + "/" + (if |rest| > 0 then Join("/", rest) + "/" else "")
  {
    var f := ["app", app, "loc", loc];
    var x := "app/" + app + "/loc/" + loc;
    JoinFour("app", app, "loc", loc);
    PathLiterals(app, loc);
    assert Join("/", f) == x;
    if |rest| > 0 {
      JoinAppend("/", f, rest);
      var y := Join("/", rest);
      assert x + "/" + y + "/" == x + "/" + (y + "/");
    } else {
      assert f + rest == f;
    }
  }

  /**
    The `_full` URL is the plain URL behind the application and location
    pairs; it stops early when either of them is missing.
   */
  lemma ContextUrlFull(kwargs: map<string, string>)
    ensures Given(kwargs, "app") && Given(kwargs, "loc") ==>
      ContextUrl(kwargs, true) ==
        Some("app/" + kwargs["app"] + "/loc/" + kwargs["loc"] + "/" +
             (if ContextUrl(kwargs, false).Some? then ContextUrl(kwargs, false).value else ""))
    ensures Given(kwargs, "app") && !Given(kwargs, "loc") ==>
      ContextUrl(kwargs, true) == Some("app/" + kwargs["app"] + "/")
    ensures !Given(kwargs, "app") ==> ContextUrl(kwargs, true).None?
  {
    if Given(kwargs, "app") && Given(kwargs, "loc") {
      var app, loc := kwargs["app"], kwargs["loc"];
      var bf := Flatten(ContextPairs(kwargs, ContextKeys));
      FullPairs(kwargs);
      FlattenTwo(("app", app), ("loc", loc), ContextPairs(kwargs, ContextKeys));
      JoinPath(app, loc, bf);
    } else if Given(kwargs, "app") {
      AppOnlyPairs(kwargs);
      var out := Flatten([("app", kwargs["app"])]);
      assert out == ["app", kwargs["app"]];
      assert out[1..] == [kwargs["app"]];
      assert Join("/", out) == "app" + "/" + kwargs["app"];
      assert "app" + "/" == "app/";
    }
  }

  /** The walk stops at the first missing argument: "at" is absent, so "an" is not emitted. */
  lemma ContextUrlStopsEarly()
    ensures ContextUrl(map["ht" := "EQ", "an" := "5"], false) == Some("ht/EQ/")
  {
    var kwargs := map["ht" := "EQ", "an" := "5"];
    var pairs := ContextPairs(kwargs, ContextKeys);
    assert Given(kwargs, "ht") && !Given(kwargs, "at");
    assert ContextKeys[1..] == ["at", "an", "dym"];
    assert ContextPairs(kwargs, ["at", "an", "dym"]) == [];
    assert pairs == [("ht", "EQ")];
    var out := Flatten(pairs);
    assert out == ["ht", "EQ"];
    assert out[1..] == ["EQ"];
    assert Join("/", out) == "ht/EQ";
    assert ContextUrl(kwargs, false) == Some(Join("/", out) + "/");
    assert "ht/EQ" + "/" == "ht/EQ/";
  }

  // ---------------------------------------------------------------------
  // get_related_analysis_type
  // ---------------------------------------------------------------------

  datatype AnalysisType = AnalysisType(id: nat, name: string)

  /** `re.sub("^e_", "r_", name)` or `re.sub("^r_", "e_", name)`; names with neither prefix have no partner. */
  function SwapPrefix(name: string): (r: Option<string>)
    ensures r.Some? <==> StartsWith(name, "e_") || StartsWith(name, "r_")
    ensures StartsWith(name, "e_") ==> r.Some? && StartsWith(r.value, "r_")
    ensures StartsWith(name, "r_") ==> r.Some? && StartsWith(r.value, "e_")
    ensures r.Some? ==> |r.value| == |name| && r.value[2..] == name[2..]
  {
    if StartsWith(name, "e_") then Some("r_" + name[2..])
    else if StartsWith(name, "r_") then Some("e_" + name[2..])
    else None
  }

  /** Swapping twice gives the name back. */
  lemma SwapPrefixInvolution(name: string)
    ensures SwapPrefix(name).Some? ==> SwapPrefix(SwapPrefix(name).value) == Some(name)
  {
    if SwapPrefix(name).Some? {
      var m := SwapPrefix(name).value;
      assert name == name[..2] + name[2..];
      assert m == m[..2] + m[2..];
    }
  }

  /** The registered analysis types of a name, in registry order. */
  function Named(registry: seq<AnalysisType>, name: string): (r: seq<AnalysisType>)
    ensures forall t :: t in r <==> t in registry && t.name == name
    ensures |r| <= |registry|
  {
    if |registry| == 0 then []
    else (if registry[0].name == name then [registry[0]] else []) + Named(registry[1..], name)
  }

  /**
    `AnalysisType.objects.get(name=name)`, with `DoesNotExist` turned into no
    result; more than one match raises.
   */
  function GetByName(registry: seq<AnalysisType>, name: string): (r: Result<Option<AnalysisType>>)
    ensures r == Ok(None) <==> forall t :: t in registry ==> t.name != name
    ensures r.Ok? && r.value.Some? ==> Named(registry, name) == [r.value.value]
    ensures r.Err? <==> |Named(registry, name)| > 1
    ensures r.Err? ==> r.error == MultipleObjects(name)
  {
    var found := Named(registry, name);
    if |found| == 0 then Ok(None)
    else if |found| == 1 then
      assert found[0] in found;
      Ok(Some(found[0]))
    else Err(MultipleObjects(name))
  }

  /** `get_related_analysis_type`: the registered type whose name is the prefix-swapped name. */
  function RelatedAnalysisType(registry: seq<AnalysisType>, current: AnalysisType): (r: Result<Option<AnalysisType>>)
    ensures r.Ok? && r.value.Some? ==>
      SwapPrefix(current.name) == Some(r.value.value.name) && r.value.value in registry
    ensures r == Ok(None) <==>
      SwapPrefix(current.name).None? || forall t :: t in registry ==> Some(t.name) != SwapPrefix(current.name)
  {
    match SwapPrefix(current.name)
    case None => Ok(None)
    case Some(n) =>
      var r := GetByName(registry, n);
      assert r.Ok? && r.value.Some? ==> r.value.value in Named(registry, n);
      r
  }

  /**
    The pairing is mutual: when a type is the only one of its name, the type
    it is related to is related back to it.
   */
  lemma RelatedAnalysisTypeMutual(registry: seq<AnalysisType>, a: AnalysisType, b: AnalysisType)
    requires Named(registry, a.name) == [a]
    requires RelatedAnalysisType(registry, a) == Ok(Some(b))
    ensures RelatedAnalysisType(registry, b) == Ok(Some(a))
  {
    SwapPrefixInvolution(a.name);
    assert SwapPrefix(b.name) == Some(a.name);
  }

  // ---------------------------------------------------------------------
  // is_user_allowed
  // ---------------------------------------------------------------------

  datatype Group = Group(id: nat, name: string)

  datatype User = User(id: nat, superuser: bool, groups: seq<Group>)

  /**
    `owner_groups.filter(name=setting).exists()`; with the setting unset the
    filter asks for a null name, which no group has.
   */
  function HasGroupNamed(groups: seq<Group>, setting: Option<string>): (r: bool)
    ensures r <==> setting.Some? && exists g :: g in groups && g.name == setting.value
  {
    if |groups| == 0 then false
    else (setting.Some? && groups[0].name == setting.value) || HasGroupNamed(groups[1..], setting)
  }

  /** `groups.values_list('id', flat=True)`. */
  function GroupIds(groups: seq<Group>): (r: seq<nat>)
    ensures |r| == |groups|
    ensures forall i :: 0 <= i < |groups| ==> r[i] == groups[i].id
  {
    seq(|groups|, i requires 0 <= i < |groups| => groups[i].id)
  }

  /** `owner_groups.filter(pk__in=ids).exists()`. */
  function SharesGroup(groups: seq<Group>, ids: seq<nat>): (r: bool)
    ensures r <==> exists g :: g in groups && g.id in ids
  {
    if |groups| == 0 then false
    else groups[0].id in ids || SharesGroup(groups[1..], ids)
  }

  /**
    `is_user_allowed(request, risk_analysis)`: an analysis whose owner is a
    country administrator is hidden from users outside all of the owner's
    groups, superusers excepted.
   */
  function IsUserAllowed(owner: Option<User>, user: User, adminGroup: Option<string>): bool
  {
    if owner.None? || user.superuser then true
    else if HasGroupNamed(owner.value.groups, adminGroup) then SharesGroup(owner.value.groups, GroupIds(user.groups))
    else true
  }

  /** The user is refused exactly when all four conditions of the nested tests hold. */
  lemma IsUserAllowedSpec(owner: Option<User>, user: User, adminGroup: Option<string>)
    ensures !IsUserAllowed(owner, user, adminGroup) <==>
      && owner.Some?
      && !user.superuser
      && adminGroup.Some?
      && (exists g :: g in owner.value.groups && g.name == adminGroup.value)
      && (forall g, h :: g in owner.value.groups && h in user.groups ==> g.id != h.id)
  {
    if owner.Some? && !user.superuser {
      var ids := GroupIds(user.groups);
      assert forall h :: h in user.groups ==> h.id in ids by {
        forall h | h in user.groups
          ensures h.id in ids
        {
          var i :| 0 <= i < |user.groups| && user.groups[i] == h;
          assert ids[i] == h.id;
        }
      }
      assert forall x :: x in ids ==> exists h :: h in user.groups && h.id == x by {
        forall x | x in ids
          ensures exists h :: h in user.groups && h.id == x
        {
          var i :| 0 <= i < |ids| && ids[i] == x;
          assert user.groups[i] in user.groups;
        }
      }
    }
  }

  /** The owner of an analysis may always see it. */
  lemma OwnerIsAllowed(owner: User, adminGroup: Option<string>)
    ensures IsUserAllowed(Some(owner), owner, adminGroup)
  {
    IsUserAllowedSpec(Some(owner), owner, adminGroup);
    if HasGroupNamed(owner.groups, adminGroup) {
      var g :| g in owner.groups && g.name == adminGroup.value;
      assert !(g.id != g.id);
    }
  }

  /** Without the administrator group setting every user is allowed. */
  lemma UnsetAdminGroupAllowsAll(owner: Option<User>, user: User)
    ensures IsUserAllowed(owner, user, None)
  {
    IsUserAllowedSpec(owner, user, None);
  }

  // ---------------------------------------------------------------------
  // EventView.get_viewparams
  // ---------------------------------------------------------------------

  datatype Event = Event(eventId: string, eventType: string, divisions: seq<Division>)

  /** Whether the geometry is looked up at the requested level itself (`int(adm_level) > 1`). */
  function GeomLookup(level: int): bool { level > 1 }

  /** The level whose divisions are listed: the requested one, or the next one down for levels 0 and 1. */
  function TargetLevel(level: int): (r: int)
    ensures r == level || r == level + 1
  {
    if GeomLookup(level) then level else level + 1
  }

  /** The geometry lookup flag is set exactly when the listed level is the requested one. */
  lemma TargetLevelSpec(level: int)
    ensures GeomLookup(level) <==> TargetLevel(level) == level
    ensures TargetLevel(level) >= 2 <==> level >= 1
  {
  }

  /** `e` lists a division at `level` with code `c`. */
  predicate ListsCode(e: Event, level: int, c: string)
  {
    exists d :: d in e.divisions && d.level == level && d.code == c
  }

  /** The codes of the divisions of one event at `level`, in division order. */
  function LevelCodes(divisions: seq<Division>, level: int): (r: seq<string>)
    ensures forall c :: c in r <==> exists d :: d in divisions && d.level == level && d.code == c
  {
    if |divisions| == 0 then []
    else (if divisions[0].level == level then [divisions[0].code] else []) + LevelCodes(divisions[1..], level)
  }

  /** `adm_codes_list`: the codes at `level` over all events, with repetitions. */
  function TargetCodes(events: seq<Event>, level: int): (r: seq<string>)
    ensures forall c :: c in r <==> exists e :: e in events && ListsCode(e, level, c)
  {
    if |events| == 0 then []
    else
      var rest := TargetCodes(events[1..], level);
      assert forall e :: e in events[1..] ==> e in events;
      assert forall c :: ListsCode(events[0], level, c) <==> c in LevelCodes(events[0].divisions, level);
      LevelCodes(events[0].divisions, level) + rest
  }

  predicate Distinct<T(==)>(s: seq<T>)
  {
    forall i, j :: 0 <= i < j < |s| ==> s[i] != s[j]
  }

  /**
    `list(set(xs))`. Python leaves the order of a set unspecified; the model
    keeps the first occurrences, and the contract states only what every
    order shares.
   */
  function Dedupe(xs: seq<string>): (r: seq<string>)
    ensures Distinct(r)
    ensures forall x :: x in r <==> x in xs
  {
    if |xs| == 0 then []
    else
      var rest := Dedupe(xs[1..]);
      if xs[0] in rest then rest
      else
        assert forall x :: x in xs ==> x == xs[0] || x in xs[1..];
        [xs[0]] + rest
  }

  function EventIds(events: seq<Event>): (r: seq<string>)
    ensures |r| == |events|
    ensures forall i :: 0 <= i < |events| ==> r[i] == events[i].eventId
  {
    seq(|events|, i requires 0 <= i < |events| => events[i].eventId)
  }

  /** The four parameters `get_viewparams` formats into the layer's view parameters. */
  datatype ViewParams = ViewParams(admCodes: seq<string>, riskAnalysis: string, eventIds: seq<string>, geomLookup: bool)

  /**
    The view parameters for an analysis, a requested level and the events:
    each code of a division of an event at the target level once, the event
    ids in event order, and the lookup flag.
   */
  function EventViewParams(level: int, riskAnalysis: string, events: seq<Event>): (r: ViewParams)
    ensures Distinct(r.admCodes)
    ensures forall c :: c in r.admCodes <==> exists e :: e in events && ListsCode(e, TargetLevel(level), c)
    ensures r.eventIds == EventIds(events)
    ensures r.riskAnalysis == riskAnalysis
    ensures r.geomLookup <==> level > 1
  {
    ViewParams(Dedupe(TargetCodes(events, TargetLevel(level))), riskAnalysis, EventIds(events), GeomLookup(level))
  }

  /** `str()` of a boolean. */
  function PyBool(b: bool): (r: string)
    ensures r == "True" <==> b
    ensures r == "False" <==> !b
  {
    if b then "True" else "False"
  }

  /** The four parameters of `get_viewparams`, each as `name:value`, in the order its format string gives. */
  function ViewParamFields(p: ViewParams): (r: seq<string>)
    ensures |r| == 4
  {
    ["adm_codes:" + Join("__", p.admCodes), "risk_analysis:" + p.riskAnalysis,
     "event_ids:" + Join("__", p.eventIds), "actual_geom_lookup:" + PyBool(p.geomLookup)]
  }

  /** The text `get_viewparams` returns: the four `name:value` pairs joined by `;`. */
  function Render(p: ViewParams): string
  {
    Join(";", ViewParamFields(p))
  }

  /**
    Read back by splitting on `;`, the text gives the four parameters in the
    order adm_codes, risk_analysis, event_ids, actual_geom_lookup, each as
    `name:value` with the flag written `True` or `False`, as long as no value
    itself holds a `;`.
   */
  lemma RenderSplits(p: ViewParams)
    requires ';' !in Join("__", p.admCodes) && ';' !in p.riskAnalysis && ';' !in Join("__", p.eventIds)
    ensures Split(Render(p), ';') ==
      ["adm_codes:" + Join("__", p.admCodes), "risk_analysis:" + p.riskAnalysis,
       "event_ids:" + Join("__", p.eventIds), "actual_geom_lookup:" + (if p.geomLookup then "True" else "False")]
  {
    SplitJoin(ViewParamFields(p), ';');
  }

  /** Two events both listing the province "IT01", asked for at level 1: the code is listed once. */
  lemma EventViewParamsExample()
    ensures var province := Division("IT01", "Piemonte", 2, None);
      EventViewParams(1, "Floods", [Event("E1", "flood", [province]), Event("E2", "flood", [province])]) ==
        ViewParams(["IT01"], "Floods", ["E1", "E2"], false)
  {
    var province := Division("IT01", "Piemonte", 2, None);
    var a := Event("E1", "flood", [province]);
    var b := Event("E2", "flood", [province]);
    var events := [a, b];
    assert TargetLevel(1) == 2;
    assert [province][1..] == [];
    assert LevelCodes([province], 2) == ["IT01"];
    assert events[1..] == [b];
    assert [b][1..] == [];
    assert TargetCodes([b], 2) == ["IT01"];
    assert TargetCodes(events, 2) == ["IT01", "IT01"];
    assert ["IT01", "IT01"][1..] == ["IT01"];
    assert Dedupe(["IT01", "IT01"]) == ["IT01"];
    assert EventIds(events) == ["E1", "E2"];
  }

  // ---------------------------------------------------------------------
  // EventDetailsView.get_related_ra and removekey
  // ---------------------------------------------------------------------

  datatype Analysis = Analysis(
    id: nat,
    name: string,
    hazardType: nat,
    analysisType: AnalysisType,
    showInEventDetails: bool,
    tags: Option<string>)

  /** The association `b` of `a` has a value among `dymValues`, compared upper-cased on both sides. */
  predicate ValueMatch(a: Analysis, dymValues: seq<string>, b: Binding)
  {
    b.analysis == a.id && exists v :: v in dymValues && Upper(b.value) == Upper(v)
  }

  /** The filters on the analysis row itself. */
  predicate RowMatch(a: Analysis, hazardType: nat, analysisType: Option<AnalysisType>, eventType: string)
  {
    && a.hazardType == hazardType
    && analysisType == Some(a.analysisType)
    && a.showInEventDetails
    && (eventType != "" ==> a.tags.Some? && ContainsIgnoreCase(a.tags.value, eventType))
  }

  /** Upper-casing is idempotent. */
  lemma UpperTwice(s: string)
    ensures Upper(Upper(s)) == Upper(s)
  {
  }

  /** The tag filter ignores case: an event type and its upper-cased form select the same rows. */
  lemma RowMatchIgnoresCase(a: Analysis, hazardType: nat, analysisType: Option<AnalysisType>, eventType: string)
    ensures RowMatch(a, hazardType, analysisType, eventType) == RowMatch(a, hazardType, analysisType, Upper(eventType))
  {
    UpperTwice(eventType);
    assert |Upper(eventType)| == |eventType|;
  }

  /** The associations through which `a` joins the value filter. */
  function Joined(store: seq<Binding>, a: Analysis, dymValues: seq<string>): (r: seq<Binding>)
    ensures forall b :: b in r <==> b in store && ValueMatch(a, dymValues, b)
    ensures |r| <= |store|
  {
    if |store| == 0 then []
    else (if ValueMatch(a, dymValues, store[0]) then [store[0]] else []) + Joined(store[1..], a, dymValues)
  }

  function Repeat<T>(x: T, n: nat): (r: seq<T>)
    ensures |r| == n
    ensures forall i :: 0 <= i < n ==> r[i] == x
  {
    seq(n, _ => x)
  }

  /** The rows one analysis contributes to the join: one per matching association, if the row filters pass. */
  function Hits(store: seq<Binding>, a: Analysis, hazardType: nat, dymValues: seq<string>,
                analysisType: Option<AnalysisType>, eventType: string): seq<Analysis>
  {
    if RowMatch(a, hazardType, analysisType, eventType) then Repeat(a, |Joined(store, a, dymValues)|) else []
  }

  lemma HitsCount(store: seq<Binding>, a: Analysis, hazardType: nat, dymValues: seq<string>,
                  analysisType: Option<AnalysisType>, eventType: string, x: Analysis)
    ensures Count(Hits(store, a, hazardType, dymValues, analysisType, eventType), x) ==
      if x == a && RowMatch(a, hazardType, analysisType, eventType) then |Joined(store, a, dymValues)| else 0
  {
    if RowMatch(a, hazardType, analysisType, eventType) {
      CountRepeat(a, |Joined(store, a, dymValues)|, x);
    }
  }

  /**
    The rows of the join behind `get_related_ra`, in the order of the analysis
    table: the analyses of the hazard and analysis type shown in event details
    with an association value among `dym_values`, and, when the event has a
    type, whose tags contain it ignoring case. The filter on the associations
    is a join, so an analysis comes once per matching association.
   */
  function JoinRows(store: seq<Binding>, analyses: seq<Analysis>, hazardType: nat, dymValues: seq<string>,
                           analysisType: Option<AnalysisType>, eventType: string): seq<Analysis>
  {
    if |analyses| == 0 then []
    else
      Hits(store, analyses[0], hazardType, dymValues, analysisType, eventType) +
      JoinRows(store, analyses[1..], hazardType, dymValues, analysisType, eventType)
  }

  /** An analysis is joined exactly when it passes the row filters and one of its associations matches. */
  lemma {:induction false} JoinRowsMembers(store: seq<Binding>, analyses: seq<Analysis>, hazardType: nat,
                                                 dymValues: seq<string>, analysisType: Option<AnalysisType>,
                                                 eventType: string)
    ensures forall a :: a in JoinRows(store, analyses, hazardType, dymValues, analysisType, eventType) <==>
      a in analyses && RowMatch(a, hazardType, analysisType, eventType) && exists b :: b in store && ValueMatch(a, dymValues, b)
  {
    if |analyses| > 0 {
      var first := analyses[0];
      var joined := Joined(store, first, dymValues);
      var here := Hits(store, first, hazardType, dymValues, analysisType, eventType);
      JoinRowsMembers(store, analyses[1..], hazardType, dymValues, analysisType, eventType);
      assert (exists b :: b in store && ValueMatch(first, dymValues, b)) <==> |joined| > 0 by {
        if |joined| > 0 {
          assert joined[0] in joined;
        }
      }
      assert forall x :: x in here <==> x == first && RowMatch(first, hazardType, analysisType, eventType) && |joined| > 0 by {
        if |here| > 0 {
          assert here[0] in here;
        }
      }
      assert forall x :: x in analyses <==> x == first || x in analyses[1..] by {
        assert analyses == [first] + analyses[1..];
      }
    }
  }

  /**
    Every analysis row (rows are distinct) comes once per association through
    which it matches, and only when it passes the row filters.
   */
  lemma {:induction false} JoinRowsCount(store: seq<Binding>, analyses: seq<Analysis>, hazardType: nat,
                                               dymValues: seq<string>, analysisType: Option<AnalysisType>,
                                               eventType: string, x: Analysis)
    requires Distinct(analyses)
    ensures Count(JoinRows(store, analyses, hazardType, dymValues, analysisType, eventType), x) ==
      if x in analyses && RowMatch(x, hazardType, analysisType, eventType) then |Joined(store, x, dymValues)| else 0
  {
    if |analyses| > 0 {
      var here := Hits(store, analyses[0], hazardType, dymValues, analysisType, eventType);
      var rest := JoinRows(store, analyses[1..], hazardType, dymValues, analysisType, eventType);
      assert Distinct(analyses[1..]);
      JoinRowsCount(store, analyses[1..], hazardType, dymValues, analysisType, eventType, x);
      CountAppend(here, rest, x);
      HitsCount(store, analyses[0], hazardType, dymValues, analysisType, eventType, x);
      assert x in analyses <==> x == analyses[0] || x in analyses[1..] by {
        assert analyses == [analyses[0]] + analyses[1..];
      }
      if x == analyses[0] {
        assert x !in analyses[1..];
      }
    }
  }

  lemma {:induction false} CountAppend<T>(a: seq<T>, b: seq<T>, x: T)
    ensures Count(a + b, x) == Count(a, x) + Count(b, x)
  {
    if |a| > 0 {
      assert (a + b)[1..] == a[1..] + b;
      CountAppend(a[1..], b, x);
    } else {
      assert a + b == b;
    }
  }

  lemma {:induction false} CountRepeat<T>(a: T, n: nat, x: T)
    ensures Count(Repeat(a, n), x) == if a == x then n else 0
  {
    if n > 0 {
      assert Repeat(a, n)[1..] == Repeat(a, n - 1);
      CountRepeat(a, n - 1, x);
    }
  }

  /** The join keeps the order of the analysis table: it distributes over a split of the list. */
  lemma {:induction false} JoinRowsAppend(store: seq<Binding>, a: seq<Analysis>, b: seq<Analysis>, hazardType: nat,
                                                dymValues: seq<string>, analysisType: Option<AnalysisType>, eventType: string)
    ensures JoinRows(store, a + b, hazardType, dymValues, analysisType, eventType) ==
      JoinRows(store, a, hazardType, dymValues, analysisType, eventType) +
      JoinRows(store, b, hazardType, dymValues, analysisType, eventType)
  {
    if |a| > 0 {
      SplitHead(a, b);
      JoinRowsAppend(store, a[1..], b, hazardType, dymValues, analysisType, eventType);
      Regroup(Hits(store, a[0], hazardType, dymValues, analysisType, eventType),
              JoinRows(store, a[1..], hazardType, dymValues, analysisType, eventType),
              JoinRows(store, b, hazardType, dymValues, analysisType, eventType));
    } else {
      assert a + b == b;
    }
  }

  /** Each row keyed by its name, the ordering `RiskAnalysis` declares for its queries. */
  function ByName(rows: seq<Analysis>): (r: seq<Sorting.Keyed<Analysis>>)
    ensures |r| == |rows|
    ensures forall i :: 0 <= i < |rows| ==> r[i].item == rows[i] && r[i].key == Sorting.TextKey(rows[i].name)
  {
    seq(|rows|, i requires 0 <= i < |rows| => Sorting.Keyed(Sorting.TextKey(rows[i].name), rows[i]))
  }

  /**
    `get_related_ra(hazard_type, dym_values, analysis_type, event)`: the join
    rows, which the query returns by ascending name since it names no order of
    its own; rows of equal name keep their join order.
   */
  function RelatedAnalyses(store: seq<Binding>, analyses: seq<Analysis>, hazardType: nat, dymValues: seq<string>,
                           analysisType: Option<AnalysisType>, eventType: string): (r: seq<Analysis>)
    ensures |r| == |JoinRows(store, analyses, hazardType, dymValues, analysisType, eventType)|
  {
    Sorting.Items(Sorting.StableSort(ByName(JoinRows(store, analyses, hazardType, dymValues, analysisType, eventType))))
  }

  /** The related analyses come by ascending name. */
  lemma RelatedAnalysesByName(store: seq<Binding>, analyses: seq<Analysis>, hazardType: nat, dymValues: seq<string>,
                              analysisType: Option<AnalysisType>, eventType: string)
    ensures var r := RelatedAnalyses(store, analyses, hazardType, dymValues, analysisType, eventType);
      forall i, j :: 0 <= i < j < |r| ==> Sorting.TextLe(r[i].name, r[j].name)
  {
    var keyed := ByName(JoinRows(store, analyses, hazardType, dymValues, analysisType, eventType));
    var sorted := Sorting.StableSort(keyed);
    Sorting.SortedMembers(keyed);
    forall i, j | 0 <= i < j < |sorted|
      ensures Sorting.TextLe(sorted[i].item.name, sorted[j].item.name)
    {
      NamedKey(keyed, sorted[i]);
      NamedKey(keyed, sorted[j]);
    }
  }

  /** An element of a list keyed by name carries its own name as key. */
  lemma NamedKey(keyed: seq<Sorting.Keyed<Analysis>>, x: Sorting.Keyed<Analysis>)
    requires forall i :: 0 <= i < |keyed| ==> keyed[i].key == Sorting.TextKey(keyed[i].item.name)
    requires x in keyed
    ensures x.key == Sorting.TextKey(x.item.name)
  {
  }

  /**
    The related analyses are the join rows rearranged by a stable ascending
    order of their names, `order`: position `k` of the result holds join row
    `order[k]`.
   */
  lemma RelatedAnalysesStable(store: seq<Binding>, analyses: seq<Analysis>, hazardType: nat, dymValues: seq<string>,
                              analysisType: Option<AnalysisType>, eventType: string)
    returns (order: seq<int>)
    ensures var rows := JoinRows(store, analyses, hazardType, dymValues, analysisType, eventType);
      var r := RelatedAnalyses(store, analyses, hazardType, dymValues, analysisType, eventType);
      Sorting.StableOrder(Sorting.KeysOf(ByName(rows)), order) && forall k :: 0 <= k < |r| ==> r[k] == rows[order[k]]
  {
    order := ByNameStable(JoinRows(store, analyses, hazardType, dymValues, analysisType, eventType));
  }

  /** Sorting rows by name places at position `k` the row `order[k]` of a stable ascending order. */
  lemma ByNameStable(rows: seq<Analysis>) returns (order: seq<int>)
    ensures Sorting.StableOrder(Sorting.KeysOf(ByName(rows)), order)
    ensures forall k :: 0 <= k < |rows| ==> Sorting.Items(Sorting.StableSort(ByName(rows)))[k] == rows[order[k]]
  {
    var keyed := ByName(rows);
    Sorting.StableSortIsStableOrder(keyed);
    order :| Sorting.StableOrder(Sorting.KeysOf(keyed), order) &&
      forall k :: 0 <= k < |keyed| ==> Sorting.StableSort(keyed)[k] == keyed[order[k]];
  }

  /** An analysis is related exactly when it passes the row filters and one of its associations matches. */
  lemma RelatedAnalysesMembers(store: seq<Binding>, analyses: seq<Analysis>, hazardType: nat,
                               dymValues: seq<string>, analysisType: Option<AnalysisType>, eventType: string)
    ensures forall a :: a in RelatedAnalyses(store, analyses, hazardType, dymValues, analysisType, eventType) <==>
      a in analyses && RowMatch(a, hazardType, analysisType, eventType) && exists b :: b in store && ValueMatch(a, dymValues, b)
  {
    var rows := JoinRows(store, analyses, hazardType, dymValues, analysisType, eventType);
    JoinRowsMembers(store, analyses, hazardType, dymValues, analysisType, eventType);
    Sorting.SortedItems(ByName(rows));
    assert Sorting.Items(ByName(rows)) == rows;
  }

  /**
    Every analysis row (rows are distinct) comes once per association through
    which it matches, and only when it passes the row filters.
   */
  lemma RelatedAnalysesCount(store: seq<Binding>, analyses: seq<Analysis>, hazardType: nat,
                             dymValues: seq<string>, analysisType: Option<AnalysisType>, eventType: string, x: Analysis)
    requires Distinct(analyses)
    ensures Count(RelatedAnalyses(store, analyses, hazardType, dymValues, analysisType, eventType), x) ==
      if x in analyses && RowMatch(x, hazardType, analysisType, eventType) then |Joined(store, x, dymValues)| else 0
  {
    var rows := JoinRows(store, analyses, hazardType, dymValues, analysisType, eventType);
    var keyed := ByName(rows);
    var sorted := Sorting.StableSort(keyed);
    var kx := Sorting.Keyed(Sorting.TextKey(x.name), x);
    JoinRowsCount(store, analyses, hazardType, dymValues, analysisType, eventType, x);
    Sorting.SortedMembers(keyed);
    forall i | 0 <= i < |sorted|
      ensures sorted[i].key == Sorting.TextKey(sorted[i].item.name)
    {
      NamedKey(keyed, sorted[i]);
    }
    CountNamed(sorted, x);
    CountNamed(keyed, x);
    CountMultiplicity(sorted, kx);
    CountMultiplicity(keyed, kx);
    assert Sorting.Items(keyed) == rows;
  }

  /** Counting an analysis among rows keyed by name is counting its keyed form. */
  lemma {:induction false} CountNamed(keyed: seq<Sorting.Keyed<Analysis>>, x: Analysis)
    requires forall i :: 0 <= i < |keyed| ==> keyed[i].key == Sorting.TextKey(keyed[i].item.name)
    ensures Count(Sorting.Items(keyed), x) == Count(keyed, Sorting.Keyed(Sorting.TextKey(x.name), x))
  {
    if |keyed| > 0 {
      assert Sorting.Items(keyed)[1..] == Sorting.Items(keyed[1..]);
      CountNamed(keyed[1..], x);
    }
  }

  /** `removekey(d, key)`: a copy without `key`; `del` raises when it is absent. */
  function RemoveKey<V>(d: map<string, V>, key: string): (r: Result<map<string, V>>)
    ensures r.Ok? <==> key in d
    ensures r.Err? ==> r.error == MissingKey(key)
    ensures r.Ok? ==> r.value.Keys == d.Keys - {key}
    ensures r.Ok? ==> forall k :: k in r.value ==> r.value[k] == d[k]
  {
    if key !in d then Err(MissingKey(key)) else Ok(d - {key})
  }

  /**
    The features of a related analysis are asked for with the event's query
    parameters less its event id: removing `evt` removes exactly `event_id`.
   */
  lemma QueryParamsWithoutEvent<V>(kwargs: map<string, V>)
    requires "evt" in kwargs
    ensures QueryParams(RemoveKey(kwargs, "evt").value) == QueryParams(kwargs) - {"event_id"}
  {
    var r := RemoveKey(kwargs, "evt").value;
    var lhs := QueryParams(r);
    var rhs := QueryParams(kwargs) - {"event_id"};
    forall p
      ensures p in lhs <==> p in rhs
    {
      if UrlName(p).Some? {
        MappedNameInverse(UrlName(p).value, p);
      }
    }
    assert lhs.Keys == rhs.Keys;
  }
}
