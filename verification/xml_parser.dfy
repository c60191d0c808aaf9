/** Feed documents: control-character cleaning, the two-pass parse policy and
    the extraction of job items from the three feed shapes. The XML parsers
    themselves and the regular-expression repairs are abstract parameters. */
module XmlParser {
  import opened Wrappers
  import opened Strings
  import JobTransformer

  /** The value the parser produces for an element: `null` (an empty element),
      text, an object keyed by child name, or an array of repeated elements. */
  datatype FeedNode = Null | Text(text: string) | Record(fields: map<string, FeedNode>) | List(items: seq<FeedNode>)

  /** JavaScript truthiness of a parsed value: `null` and `''` are falsy,
      objects and arrays (even empty ones) are truthy. */
  predicate IsTruthy(n: FeedNode) {
    match n
    case Null => false
    case Text(t) => t != ""
    case Record(_) => true
    case List(_) => true
  }

  /** Property access `n.key` for the feed-level keys `channel` and `item`:
      only objects have them as own properties, no string or array inherits
      them, and a missing key reads as `undefined`, modelled as `Null`. */
  function Get(n: FeedNode, key: string): (r: FeedNode)
    ensures !n.Record? ==> r == Null
    ensures n.Record? && key !in n.fields ==> r == Null
  {
    if n.Record? && key in n.fields then n.fields[key] else Null
  }

  /** The HTTP response body handed to the parser: text, or something else. */
  datatype Payload = Str(text: string) | NonStr

  // ---- Control characters ----

  /** The characters the cleaning step removes: U+0000-U+0008, U+000B, U+000C
      and U+000E-U+001F. Tab, line feed and carriage return are kept. */
  predicate IsStrippedControl(c: char) {
    ('\U{0000}' <= c <= '\U{0008}') || c == '\U{000B}' || c == '\U{000C}'
    || ('\U{000E}' <= c <= '\U{001F}')
  }

  /** `s.replace(/[\x00-\x08\x0B\x0C\x0E-\x1F]/g, '')`. */
  function StripControl(s: string): (r: string)
    ensures |r| <= |s|
    ensures forall i :: 0 <= i < |r| ==> !IsStrippedControl(r[i])
    ensures forall c :: !IsStrippedControl(c) ==> multiset(r)[c] == multiset(s)[c]
  {
    if s == [] then []
    else
      var rest := StripControl(s[1..]);
      assert s == [s[0]] + s[1..];
      if IsStrippedControl(s[0]) then rest else [s[0]] + rest
  }

  /** Cleaning works character by character, so it distributes over
      concatenation: the kept characters stay in their order. */
  lemma {:induction false} StripControlAppend(a: string, b: string)
    ensures StripControl(a + b) == StripControl(a) + StripControl(b)
  {
    if a == [] {
      assert a + b == b;
    } else {
      var ab := a + b;
      assert ab[0] == a[0] && ab[1..] == a[1..] + b;
      StripControlAppend(a[1..], b);
    }
  }

  /** A string with no stripped character is left exactly as it is. */
  lemma {:induction false} StripControlKeepsClean(s: string)
    requires forall i :: 0 <= i < |s| ==> !IsStrippedControl(s[i])
    ensures StripControl(s) == s
  {
    if s != [] {
      StripControlKeepsClean(s[1..]);
    }
  }

  /** Cleaning twice is cleaning once. */
  lemma StripControlIdempotent(s: string)
    ensures StripControl(StripControl(s)) == StripControl(s)
  {
    StripControlKeepsClean(StripControl(s));
  }

  /** `cleanXmlData`: a non-string body is returned unchanged; a string goes
      through the attribute and CDATA repairs (`repair`, abstract) and then
      loses its control characters. */
  function CleanXml(data: Payload, repair: string -> string): (r: Payload)
    ensures data.NonStr? ==> r == data
    ensures r.Str? <==> data.Str?
    ensures r.Str? ==> forall i :: 0 <= i < |r.text| ==> !IsStrippedControl(r.text[i])
  {
    match data
    case NonStr => NonStr
    case Str(s) => Str(StripControl(repair(s)))
  }

  // ---- The two-pass parse ----

  /** What one parser pass yields: a tree, or a thrown error's message. */
  datatype ParseOutcome = Parsed(tree: FeedNode) | ParseFailed(message: string)

  /** The foreign pieces of the parse: the regular-expression repairs of the
      cleaning step, the primary (attribute-merging) parser, the quote repair
      of the fallback and the lenient parser. */
  datatype XmlToolkit = XmlToolkit(
    repair: string -> string,
    primary: Payload -> ParseOutcome,
    quoteRepair: string -> string,
    lenient: string -> ParseOutcome)

  const ParseErrorPrefix := "Failed to parse XML: "

  /** The fallback pass: it runs on the original document, not the cleaned one;
      on a body that is not a string, `xmlData.replace` throws, so it fails. */
  function Fallback(data: Payload, tk: XmlToolkit): (r: ParseOutcome)
    ensures data.NonStr? ==> r.ParseFailed?
  {
    match data
    case NonStr => ParseFailed("xmlData.replace is not a function")
    case Str(s) => tk.lenient(tk.quoteRepair(s))
  }

  /** `parseXmlToJson`: the primary pass on the cleaned body wins; when it
      throws, the fallback's tree is returned; when both throw, the error
      carries the primary pass's message. */
  function ParseXml(data: Payload, tk: XmlToolkit): (r: Result<FeedNode>)
    ensures tk.primary(CleanXml(data, tk.repair)).Parsed? ==>
              r == Success(tk.primary(CleanXml(data, tk.repair)).tree)
    ensures (tk.primary(CleanXml(data, tk.repair)).ParseFailed? && Fallback(data, tk).Parsed?) ==>
              r == Success(Fallback(data, tk).tree)
    ensures r.Failure? <==> tk.primary(CleanXml(data, tk.repair)).ParseFailed? && Fallback(data, tk).ParseFailed?
    ensures r.Failure? ==> r.error == ParseErrorPrefix + tk.primary(CleanXml(data, tk.repair)).message
  {
    match tk.primary(CleanXml(data, tk.repair))
    case Parsed(tree) => Success(tree)
    case ParseFailed(e) =>
      match Fallback(data, tk)
      case Parsed(tree) => Success(tree)
      case ParseFailed(_) => Failure(ParseErrorPrefix + e)
  }

  /** Once the primary pass has failed, the cleaning repairs play no part: the
      outcome is the same whatever they do to the document. */
  lemma FallbackIgnoresCleaning(data: Payload, tk: XmlToolkit, repair2: string -> string)
    requires tk.primary(CleanXml(data, tk.repair)).ParseFailed?
    requires tk.primary(CleanXml(data, repair2)) == tk.primary(CleanXml(data, tk.repair))
    ensures ParseXml(data, tk.(repair := repair2)) == ParseXml(data, tk)
  {
  }

  /** The message of a document both passes reject names both a parse and XML,
      whatever the primary pass said. */
  lemma ParseFailureMentionsParse(data: Payload, tk: XmlToolkit)
    requires ParseXml(data, tk).Failure?
    ensures Contains(ParseXml(data, tk).error, "parse") && Contains(ParseXml(data, tk).error, "XML")
  {
    var e := tk.primary(CleanXml(data, tk.repair)).message;
    assert OccursAt(ParseErrorPrefix, "parse", 10);
    assert OccursAt(ParseErrorPrefix, "XML", 16);
    ContainsAt(ParseErrorPrefix, "parse", 10);
    ContainsAt(ParseErrorPrefix, "XML", 16);
    ContainsAppend(ParseErrorPrefix, e, "parse");
    ContainsAppend(ParseErrorPrefix, e, "XML");
  }

  // ---- Item extraction ----

  /** `Array.isArray(x) ? x : [x]`. */
  function AsList(x: FeedNode): (r: seq<FeedNode>)
    ensures x.List? ==> r == x.items
    ensures !x.List? ==> r == [x]
  {
    if x.List? then x.items else [x]
  }

  /** `extractJobsFromFeed`: the items under `channel.item` (RSS) take
      precedence over a top-level `item`; a root array is its own item list;
      any other shape, and a falsy tree, gives no items. */
  function ExtractJobs(n: FeedNode): (r: seq<FeedNode>)
    ensures !IsTruthy(n) ==> r == []
    ensures (IsTruthy(Get(n, "channel")) && IsTruthy(Get(Get(n, "channel"), "item"))) ==>
              r == AsList(Get(Get(n, "channel"), "item"))
    ensures (!(IsTruthy(Get(n, "channel")) && IsTruthy(Get(Get(n, "channel"), "item")))
             && IsTruthy(Get(n, "item"))) ==> r == AsList(Get(n, "item"))
    ensures n.List? ==> r == n.items
    ensures n.Text? ==> r == []
  {
    if !IsTruthy(n) then []
    else
      var channel := Get(n, "channel");
      if IsTruthy(channel) && IsTruthy(Get(channel, "item")) then AsList(Get(channel, "item"))
      else if IsTruthy(Get(n, "item")) then AsList(Get(n, "item"))
      else if n.List? then n.items
      else []
  }

  /** The RSS shape yields its channel's items: a repeated `item` as the list
      of its elements, a single one as a one-element list, and a top-level
      `item` beside the channel is ignored. */
  lemma RssShape(items: seq<FeedNode>, single: map<string, FeedNode>, other: FeedNode)
    ensures ExtractJobs(Record(map["channel" := Record(map["item" := List(items)]), "item" := other]))
            == items
    ensures ExtractJobs(Record(map["channel" := Record(map["item" := Record(single)])]))
            == [Record(single)]
  {
  }

  /** A feed without a channel falls back to its top-level `item`; an object
      with neither yields no items. */
  lemma ItemShape(items: seq<FeedNode>, fields: map<string, FeedNode>)
    requires "channel" !in fields
    ensures ExtractJobs(Record(fields["item" := List(items)])) == items
    ensures "item" !in fields ==> ExtractJobs(Record(fields)) == []
  {
  }

  /** `String(x)` of a parsed value inside an array, where `null` prints as
      nothing: an object prints as `[object Object]`, an array as its
      elements' texts joined with ','. */
  function ElementText(n: FeedNode): string
    decreases n, 1
  {
    match n
    case Null => ""
    case Text(t) => t
    case Record(_) => JobTransformer.ObjectText
    case List(items) => ListText(items)
  }

  /** `items.toString()`, that is `items.join(',')`. */
  function ListText(items: seq<FeedNode>): string
    decreases items, 0
  {
    if |items| == 0 then ""
    else if |items| == 1 then ElementText(items[0])
    else ElementText(items[0]) + "," + ListText(items[1..])
  }

  /** A present property as the transformer sees it: text stays text; an
      object or array is nested, with the text `String` makes of it. */
  function ValueOf(n: FeedNode): (v: JobTransformer.Value)
    requires !n.Null?
    ensures v.Nested? <==> n.Record? || n.List?
    ensures JobTransformer.Shown(v) == ElementText(n)
  {
    match n
    case Text(t) => JobTransformer.Text(t)
    case Record(_) => JobTransformer.Nested(JobTransformer.ObjectText)
    case List(items) => JobTransformer.Nested(ListText(items))
  }

  /** What `String` makes of `String.prototype.link`. */
  const LinkMethodText := "function link() { [native code] }"

  /** The properties a string item inherits among those the transformer
      reads. Of all the names it reads (`guid`, `id`, `link`, `url`, `title`,
      the date, company, location, description, type, category and salary
      aliases), only `link` is a `String.prototype` member: a method, hence
      truthy, printed as native code, and without `trim`. Neither
      `Array.prototype` nor `Object.prototype` has any of these names. */
  const StringInherited: JobTransformer.Fields := map["link" := JobTransformer.Nested(LinkMethodText)]

  /** The item as the transformer sees it: the empty-element `null` stays
      null; an object keeps its non-null properties (a `null` property reads
      as falsy, like a missing one); a string shows only the inherited
      `link` method; an array has none of the properties the transformer
      reads. */
  function ItemOf(n: FeedNode): (r: JobTransformer.RawItem)
    ensures r.NullItem? <==> n.Null?
  {
    match n
    case Null => JobTransformer.NullItem
    case Record(fs) => JobTransformer.Item(map k | k in fs && !fs[k].Null? :: ValueOf(fs[k]))
    case Text(_) => JobTransformer.Item(StringInherited)
    case List(_) => JobTransformer.Item(map[])
  }

  /** Reading property `k` of the item: for an object it reads property `k`
      of the tree, present exactly when the tree has it and it is not
      `null`, carrying the tree's text or the text `String` makes of an
      object or array, and truthy exactly when it is truthy in the tree. A
      string item has exactly one such property, the truthy, nested `link`
      method; an array has none. */
  lemma ItemOfReadsTree(n: FeedNode, k: string)
    requires !n.Null?
    ensures k in ItemOf(n).fields <==> (n.Record? && k in n.fields && !n.fields[k].Null?) || (n.Text? && k == "link")
    ensures n.Record? && k in ItemOf(n).fields ==> ItemOf(n).fields[k] == ValueOf(n.fields[k])
    ensures n.Record? && k in ItemOf(n).fields ==> JobTransformer.Shown(ItemOf(n).fields[k]) == ElementText(n.fields[k])
    ensures n.Record? ==> (JobTransformer.Truthy(ItemOf(n).fields, k) <==> IsTruthy(Get(n, k)))
    ensures !n.Record? ==> (JobTransformer.Truthy(ItemOf(n).fields, k) <==> n.Text? && k == "link")
    ensures n.Text? && k == "link" ==> ItemOf(n).fields[k] == JobTransformer.Nested(LinkMethodText)
  {
  }

  /** A text-only `<item>` parses to a string. The transformer then reads the
      inherited `link` method: the generated jobId hashes the method's
      printed text, the posting's URL is the method itself, and validation
      throws the TypeError of calling `trim` on it, so the item is rejected
      at import (see `JobImport.ImportItem`). */
  lemma TextItemReadsLinkMethod(t: string, source: string, digest: string -> string)
    ensures JobTransformer.Transformable(ItemOf(Text(t)))
    ensures var job := JobTransformer.Transform(ItemOf(Text(t)), source, digest).value;
            && job.jobId == Trim(digest(LinkMethodText + "--"))
            && job.title == JobTransformer.Text("Untitled Position")
            && job.url == JobTransformer.Nested(LinkMethodText)
            && job.description == ""
            && JobTransformer.ValidateJob(job) == Failure(JobTransformer.UrlTrimError)
  {
    var m := StringInherited;
    assert ItemOf(Text(t)) == JobTransformer.Item(m);
    assert m.Keys == {"link"};
    assert JobTransformer.DescriptionValue(m) == JobTransformer.Text("");
    assert JobTransformer.KeyFields(m) == (LinkMethodText, "", "");
    var link := LinkMethodText;
    assert JobTransformer.IdentifierKeyAsWritten(m) == link + "-" + "" + "-" + "";
    assert link + "-" + "" + "-" + "" == link + ("-" + "-") by {
      assert link + "-" + "" == link + "-";
    }
    assert "-" + "-" == "--";
    assert JobTransformer.GenerateJobId(m, digest) == digest(link + "--");
    assert !JobTransformer.Truthy(m, "guid") && !JobTransformer.Truthy(m, "id");
    assert JobTransformer.ResolveJobId(m, digest) == Trim(digest(link + "--"));
    assert JobTransformer.Transform(ItemOf(Text(t)), source, digest).value
        == JobTransformer.Normalize(m, source, digest);
  }

  /** An element with attributes becomes an object, so every accepted item
      whose `guid` carries an attribute gets the same jobId, whatever the
      guid's text. */
  lemma AttributedGuidsShareJobId(a: map<string, FeedNode>, b: map<string, FeedNode>,
                                  source: string, digest: string -> string)
    requires "guid" in a && a["guid"].Record? && "guid" in b && b["guid"].Record?
    requires JobTransformer.Transformable(ItemOf(Record(a))) && JobTransformer.Transformable(ItemOf(Record(b)))
    ensures JobTransformer.Transform(ItemOf(Record(a)), source, digest).value.jobId
            == JobTransformer.Transform(ItemOf(Record(b)), source, digest).value.jobId
            == Trim(JobTransformer.ObjectText)
  {
    ItemOfReadsTree(Record(a), "guid");
    ItemOfReadsTree(Record(b), "guid");
    JobTransformer.NestedGuidsShareJobId(ItemOf(Record(a)).fields, ItemOf(Record(b)).fields, source, digest);
  }

  /** An item whose description element has attributes or children is
      rejected by the transform. */
  lemma NestedDescriptionRejected(fs: map<string, FeedNode>)
    requires "description" in fs && fs["description"].Record?
    ensures !JobTransformer.Transformable(ItemOf(Record(fs)))
  {
    ItemOfReadsTree(Record(fs), "description");
  }
}
