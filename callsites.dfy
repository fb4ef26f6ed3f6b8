/** How Python binds the keyword arguments of a call to a constructor's parameters and how it
    resolves `obj.name += values`, applied to the places in main.py where the calcium trace, the
    tracelets and the summary collection are built or extended. None of the constructors has
    a default value or `**kwargs`, so a call binds exactly when its keywords are its
    parameters. */
module CallSites {
  import opened Wrappers

  datatype CallError =
    | UnexpectedKeyword(keyword: string)
    | MissingArgument(parameter: string)
    | AttributeMissing(attribute: string)

  /** The first entry of `xs` that is not in `ys`, if any. */
  function FirstOutside(xs: seq<string>, ys: seq<string>): (r: Option<string>)
    ensures r.Some? ==> r.value in xs && r.value !in ys
    ensures r.None? <==> forall x :: x in xs ==> x in ys
  {
    if xs == [] then None
    else if xs[0] !in ys then Some(xs[0])
    else
      var rest := FirstOutside(xs[1..], ys);
      assert forall x :: x in xs ==> x == xs[0] || x in xs[1..];
      rest
  }

  /** The position of the first occurrence of `x` in `s`. */
  function IndexOf(s: seq<string>, x: string): (i: nat)
    requires x in s
    ensures i < |s| && s[i] == x
    ensures forall j :: 0 <= j < i ==> s[j] != x
  {
    if s[0] == x then 0 else 1 + IndexOf(s[1..], x)
  }

  /** Binding a call's keywords to the parameters: an unknown keyword fails first, then a
      parameter no keyword names; otherwise each parameter gets the position of the keyword
      that names it. */
  function BindKeywords(params: seq<string>, keywords: seq<string>): (r: Result<seq<nat>, CallError>)
    ensures r.Ok? <==> (forall k :: k in keywords ==> k in params) && (forall p :: p in params ==> p in keywords)
    ensures r.Ok? ==> |r.value| == |params|
                      && forall i :: 0 <= i < |params| ==> r.value[i] < |keywords| && keywords[r.value[i]] == params[i]
    ensures r.Err? && r.error.UnexpectedKeyword? ==> r.error.keyword in keywords && r.error.keyword !in params
    ensures r.Err? && r.error.MissingArgument? ==>
              (forall k :: k in keywords ==> k in params) && r.error.parameter in params && r.error.parameter !in keywords
    ensures r.Err? ==> !r.error.AttributeMissing?
  {
    match FirstOutside(keywords, params)
    case Some(k) => Err(UnexpectedKeyword(k))
    case None =>
      match FirstOutside(params, keywords)
      case Some(p) => Err(MissingArgument(p))
      case None => Ok(seq(|params|, i requires 0 <= i < |params| => IndexOf(keywords, params[i])))
  }

  /** `obj.name += values` on an object whose attributes are `attrs`: reading the attribute
      fails when the object has none of that name. */
  function ExtendAttribute(attrs: map<string, seq<real>>, name: string, values: seq<real>): (r: Result<map<string, seq<real>>, CallError>)
    ensures r.Err? <==> name !in attrs
    ensures r.Err? ==> r.error == AttributeMissing(name)
    ensures r.Ok? ==> r.value.Keys == attrs.Keys && r.value[name] == attrs[name] + values
    ensures r.Ok? ==> forall other :: other in attrs && other != name ==> r.value[other] == attrs[other]
  {
    if name in attrs then Ok(attrs[name := attrs[name] + values]) else Err(AttributeMissing(name))
  }

  /** `CalciumTrace.__init__(self, sheetname, colname, tm, raw_dt, bg)`. */
  const TraceParameters: seq<string> := ["sheetname", "colname", "tm", "raw_dt", "bg"]
  /** The keywords main.py passes when it builds each column's trace. */
  const TraceKeywordsAsWritten: seq<string> := ["sheetname", "colname", "tm", "dt", "bg"]
  /** The same call naming the raw data by its parameter's name. */
  const TraceKeywordsIntended: seq<string> := ["sheetname", "colname", "tm", "raw_dt", "bg"]

  /** `Tracelet.__init__(self, tm, dt)`: no smoothed samples, and no `y_sm` attribute. */
  const TraceletParameters: seq<string> := ["tm", "dt"]
  /** The keywords main.py passes when it builds each fall segment's tracelet. */
  const TraceletKeywordsAsWritten: seq<string> := ["tm", "dt", "sm"]
  /** The constructor the call and the later `trcelt.y_sm` reads expect. */
  const TraceletParametersIntended: seq<string> := ["tm", "dt", "sm"]

  /** The summary lists main.py extends on the collection. */
  const CollectionLists: seq<string> := ["rise_ts", "amplitudes", "t10s", "t50s", "t90s", "t100s", "taus"]

  /** main.py's trace call passes `dt`, which the trace constructor does not take: the call
      raises a TypeError before any column is analysed, while `raw_dt` binds every parameter in
      order. */
  lemma TraceCallAsWrittenFails()
    ensures BindKeywords(TraceParameters, TraceKeywordsAsWritten) == Err(UnexpectedKeyword("dt"))
    ensures BindKeywords(TraceParameters, TraceKeywordsIntended).Ok?
  {
    var written := TraceKeywordsAsWritten;
    assert written[0] == TraceParameters[0] && written[1] == TraceParameters[1] && written[2] == TraceParameters[2];
    assert written[3] == "dt" && "dt" !in TraceParameters;
    assert FirstOutside(written[3..], TraceParameters) == Some("dt");
    assert FirstOutside(written[2..], TraceParameters) == Some("dt");
    assert FirstOutside(written[1..], TraceParameters) == Some("dt");
    assert FirstOutside(written, TraceParameters) == Some("dt");
  }

  /** main.py's tracelet call passes `sm`, which the tracelet constructor does not take; the
      constructor that also takes the smoothed samples binds all three. */
  lemma TraceletCallAsWrittenFails()
    ensures BindKeywords(TraceletParameters, TraceletKeywordsAsWritten) == Err(UnexpectedKeyword("sm"))
    ensures BindKeywords(TraceletParametersIntended, TraceletKeywordsAsWritten).Ok?
  {
    var written := TraceletKeywordsAsWritten;
    assert written[0] == TraceletParameters[0] && written[1] == TraceletParameters[1];
    assert written[2] == "sm" && "sm" !in TraceletParameters;
    assert FirstOutside(written[2..], TraceletParameters) == Some("sm");
    assert FirstOutside(written[1..], TraceletParameters) == Some("sm");
    assert FirstOutside(written, TraceletParameters) == Some("sm");
  }

  /** `TraceCollection.__init__` sets no attribute, so the first `trcecl.rise_ts += rise_t`
      fails whatever the rise times are; a collection that starts every summary list empty
      accepts an extension of each and holds exactly the appended values. */
  lemma CollectionAsWrittenFails(values: seq<real>)
    ensures ExtendAttribute(map[], "rise_ts", values) == Err(AttributeMissing("rise_ts"))
    ensures forall name :: name in CollectionLists ==>
              ExtendAttribute(EmptyLists(CollectionLists), name, values).Ok?
              && ExtendAttribute(EmptyLists(CollectionLists), name, values).value[name] == values
  {
    forall name | name in CollectionLists
      ensures ExtendAttribute(EmptyLists(CollectionLists), name, values).Ok?
      ensures ExtendAttribute(EmptyLists(CollectionLists), name, values).value[name] == values
    {
      assert EmptyLists(CollectionLists)[name] == [];
    }
  }

  /** Attributes for every given name, each bound to an empty list. */
  function EmptyLists(names: seq<string>): (attrs: map<string, seq<real>>)
    ensures attrs.Keys == set name | name in names
    ensures forall name :: name in attrs ==> attrs[name] == []
  {
    map name | name in names :: []
  }
}
