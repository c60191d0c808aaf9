/** Normalisation of one raw feed item into a job posting, and validation of
    the posting's required fields. */
module JobTransformer {
  import opened Wrappers
  import opened Strings

  /** A property of a feed item as the parser leaves it: text, or a nested
      value (an element with attributes or children becomes an object, a
      repeated element an array). `shown` is what `String(value)` and a
      template literal make of the nested value. */
  datatype Value = Text(text: string) | Nested(shown: string)

  /** `String(value)`. */
  function Shown(v: Value): string {
    match v
    case Text(t) => t
    case Nested(s) => s
  }

  /** The properties of a feed item, keyed by element name. */
  type Fields = map<string, Value>

  /** A feed item as the transformer receives it: a parsed element, or the
      `null` the parser produces for an empty element. */
  datatype RawItem = NullItem | Item(fields: Fields)

  /** The publication date: a feed-supplied text (parsed by `new Date`, which is
      left opaque), or the clock at transformation time when no field gives one. */
  datatype Published = FeedDate(text: string) | TransformTime

  /** The canonical job posting. The title and the URL keep the parser's
      value, because validation treats an object there differently from
      text; the other fields hold their printed text. */
  datatype Job = Job(
    jobId: string,
    title: Value,
    company: string,
    location: string,
    description: string,
    url: Value,
    publishedDate: Published,
    jobType: string,
    category: string,
    region: string,
    salary: string,
    source: string,
    rawData: Fields,
    isActive: bool)

  /** JavaScript truthiness of `raw[key]`: present and, for text, non-empty;
      objects and arrays are always truthy. */
  predicate Truthy(m: Fields, key: string) {
    key in m && (m[key].Nested? || m[key].text != "")
  }

  /** `raw[key]` is an object or array. */
  predicate NestedAt(m: Fields, key: string) {
    key in m && m[key].Nested?
  }

  /** `raw[key] || otherwise`: the property when it is truthy, else `otherwise`. */
  function Or(m: Fields, key: string, otherwise: Value): Value {
    if Truthy(m, key) then m[key] else otherwise
  }

  const MaxDescriptionLength := 5000

  const NullItemError := "Job transformation failed: Cannot read properties of null (reading 'guid')"

  const DescriptionError := "Job transformation failed: description.replace is not a function"

  /** What `String` makes of a plain object. */
  const ObjectText := "[object Object]"

  /** The three hashed fields: `link||url`, `title` and `pubdate||pubDate`. */
  function KeyFields(m: Fields): (string, string, string) {
    (Shown(Or(m, "link", Or(m, "url", Text("")))), Shown(Or(m, "title", Text(""))),
     Shown(Or(m, "pubdate", Or(m, "pubDate", Text("")))))
  }

  /** The text the code hashes when an item has neither `guid` nor `id`: the
      three fields joined with '-'. */
  function IdentifierKeyAsWritten(m: Fields): string {
    var f := KeyFields(m);
    f.0 + "-" + f.1 + "-" + f.2
  }

  /** Because '-' also occurs inside links and titles, the text the code
      hashes does not determine the three fields: two items that differ in
      link and title hash the same text. */
  lemma AsWrittenKeyCollides()
    ensures var a := map["link" := Text("x-a"), "title" := Text("b")];
            var b := map["link" := Text("x"), "title" := Text("a-b")];
            KeyFields(a) != KeyFields(b) && IdentifierKeyAsWritten(a) == IdentifierKeyAsWritten(b)
  {
    var a := map["link" := Text("x-a"), "title" := Text("b")];
    var b := map["link" := Text("x"), "title" := Text("a-b")];
    assert KeyFields(a).0 == "x-a" && KeyFields(b).0 == "x";
    assert IdentifierKeyAsWritten(a) == "x-a-b-";
    assert IdentifierKeyAsWritten(b) == "x-a-b-";
  }

  /** A field with every '-' and '\' preceded by a '\', so that an unescaped
      '-' can only be a separator. */
  function Escape(s: string): string {
    if s == [] then []
    else (if s[0] == '-' || s[0] == '\\' then ['\\', s[0]] else [s[0]]) + Escape(s[1..])
  }

  /** Reads one escaped field up to the first unescaped '-': the field, and
      what follows that separator. */
  function SplitField(s: string): (string, string)
    decreases |s|
  {
    if s == [] then ([], [])
    else if s[0] == '-' then ([], s[1..])
    else if s[0] == '\\' && |s| >= 2 then
      var p := SplitField(s[2..]);
      ([s[1]] + p.0, p.1)
    else
      var p := SplitField(s[1..]);
      ([s[0]] + p.0, p.1)
  }

  /** An escaped field followed by a separator reads back as the field. */
  lemma {:induction false} SplitEscaped(a: string, rest: string)
    ensures SplitField(Escape(a) + "-" + rest) == (a, rest)
  {
    var s := Escape(a) + "-" + rest;
    if a == [] {
      assert s == ['-'] + rest;
    } else {
      var head := if a[0] == '-' || a[0] == '\\' then ['\\', a[0]] else [a[0]];
      assert Escape(a) == head + Escape(a[1..]);
      assert s == head + (Escape(a[1..]) + "-" + rest);
      SplitEscaped(a[1..], rest);
      assert s[|head|..] == Escape(a[1..]) + "-" + rest;
      assert [a[0]] + a[1..] == a;
    }
  }

  /** The text hashed when an item has neither `guid` nor `id`: the three
      fields escaped and joined with '-', so that different fields never
      give the same text (see `IdentifierKeyInjective`). */
  function IdentifierKey(m: Fields): string {
    var f := KeyFields(m);
    Escape(f.0) + "-" + Escape(f.1) + "-" + Escape(f.2)
  }

  /** The hashed text determines the three fields. */
  lemma IdentifierKeyInjective(a: Fields, b: Fields)
    requires IdentifierKey(a) == IdentifierKey(b)
    ensures KeyFields(a) == KeyFields(b)
  {
    var fa, fb := KeyFields(a), KeyFields(b);
    var ra := Escape(fa.1) + "-" + Escape(fa.2);
    var rb := Escape(fb.1) + "-" + Escape(fb.2);
    assert IdentifierKey(a) == Escape(fa.0) + "-" + ra;
    assert IdentifierKey(b) == Escape(fb.0) + "-" + rb;
    SplitEscaped(fa.0, ra);
    SplitEscaped(fb.0, rb);
    SplitEscaped(fa.1, Escape(fa.2));
    SplitEscaped(fb.1, Escape(fb.2));
    SplitEscaped(fa.2, []);
    SplitEscaped(fb.2, []);
    assert Escape(fa.2) + "-" + [] == Escape(fb.2) + "-" + [];
  }

  /** `generateJobId`: the content-derived identifier, the digest of the
      three fields joined with '-' as the code writes it; `digest` stands for
      the md5 hex digest. */
  function GenerateJobId(m: Fields, digest: string -> string): string {
    digest(IdentifierKeyAsWritten(m))
  }

  /** Items that agree on the three hashed fields get the same generated id,
      whatever else they carry. */
  lemma GenerateJobIdDeterministic(a: Fields, b: Fields, digest: string -> string)
    requires KeyFields(a) == KeyFields(b)
    ensures GenerateJobId(a, digest) == GenerateJobId(b, digest)
    ensures IdentifierKeyAsWritten(a) == IdentifierKeyAsWritten(b)
  {
  }

  /** The two items of `AsWrittenKeyCollides` have no guid or id, differ in
      link and title, and still get the same jobId under every digest: the
      second one is taken for the first. */
  lemma AsWrittenItemsShareJobId(digest: string -> string)
    ensures var a := map["link" := Text("x-a"), "title" := Text("b")];
            var b := map["link" := Text("x"), "title" := Text("a-b")];
            && !Truthy(a, "guid") && !Truthy(a, "id") && !Truthy(b, "guid") && !Truthy(b, "id")
            && KeyFields(a) != KeyFields(b)
            && ResolveJobId(a, digest) == ResolveJobId(b, digest)
  {
    AsWrittenKeyCollides();
  }

  /** The identifier with the corrected key. */
  function GenerateJobIdCorrected(m: Fields, digest: string -> string): string {
    digest(IdentifierKey(m))
  }

  /** With the corrected key and a digest without collisions, items with
      different link, title or date always get different identifiers. */
  lemma CorrectedJobIdSeparates(a: Fields, b: Fields, digest: string -> string)
    requires forall x, y :: digest(x) == digest(y) ==> x == y
    requires KeyFields(a) != KeyFields(b)
    ensures GenerateJobIdCorrected(a, digest) != GenerateJobIdCorrected(b, digest)
  {
    if GenerateJobIdCorrected(a, digest) == GenerateJobIdCorrected(b, digest) {
      IdentifierKeyInjective(a, b);
    }
  }

  /** `source.includes(...)` tests for the employment type, in fixed order. */
  function ExtractJobType(source: string): (r: string)
    ensures r == "Full-time" || r == "Part-time" || r == "Contract"
    ensures r == "Part-time" <==> !Contains(source, "full-time") && Contains(source, "part-time")
    ensures r == "Contract" <==> !Contains(source, "full-time") && !Contains(source, "part-time")
                                 && Contains(source, "contract")
  {
    if Contains(source, "full-time") then "Full-time"
    else if Contains(source, "part-time") then "Part-time"
    else if Contains(source, "contract") then "Contract"
    else "Full-time"
  }

  /** The category map, in the insertion order `Object.entries` visits it. */
  const CategoryTable: seq<(string, string)> := [
    ("smm", "Social Media Marketing"),
    ("seller", "Sales"),
    ("design-multimedia", "Design & Multimedia"),
    ("data-science", "Data Science"),
    ("copywriting", "Copywriting"),
    ("business", "Business"),
    ("management", "Management")
  ]

  /** The value of the first table key the source URL contains, else `default`. */
  function LookupCategory(source: string, table: seq<(string, string)>, default: string): (r: string)
    ensures forall i :: (0 <= i < |table| && Contains(source, table[i].0)
                         && (forall j :: 0 <= j < i ==> !Contains(source, table[j].0))) ==> r == table[i].1
    ensures (forall i :: 0 <= i < |table| ==> !Contains(source, table[i].0)) ==> r == default
    ensures r == default || exists i :: 0 <= i < |table| && r == table[i].1
  {
    if |table| == 0 then default
    else if Contains(source, table[0].0) then table[0].1
    else LookupCategory(source, table[1..], default)
  }

  /** `extractCategory`: the first category key (in map order) the source URL
      contains gives the category; otherwise 'General'. */
  function ExtractCategory(source: string): (r: string)
    ensures r != ""
    ensures (forall i :: 0 <= i < |CategoryTable| ==> !Contains(source, CategoryTable[i].0)) ==> r == "General"
    ensures (exists i :: 0 <= i < |CategoryTable| && Contains(source, CategoryTable[i].0))
              ==> r == CategoryTable[FirstContained(source, CategoryTable)].1
  {
    LookupCategoryFirst(source, CategoryTable, "General");
    LookupCategory(source, CategoryTable, "General")
  }

  /** The lookup returns the value of the first key the source contains, and
      it is never empty when neither the default nor any value is. */
  lemma LookupCategoryFirst(source: string, table: seq<(string, string)>, default: string)
    requires default != "" && forall i :: 0 <= i < |table| ==> table[i].1 != ""
    ensures LookupCategory(source, table, default) != ""
    ensures (exists i :: 0 <= i < |table| && Contains(source, table[i].0))
              ==> LookupCategory(source, table, default) == table[FirstContained(source, table)].1
  {
    if exists i :: 0 <= i < |table| && Contains(source, table[i].0) {
      var k := FirstContained(source, table);
      assert LookupCategory(source, table, default) == table[k].1;
    }
  }

  /** The index of the first table key the source contains. */
  function FirstContained(source: string, table: seq<(string, string)>): (k: nat)
    requires exists i :: 0 <= i < |table| && Contains(source, table[i].0)
    ensures k < |table| && Contains(source, table[k].0)
    ensures forall j :: 0 <= j < k ==> !Contains(source, table[j].0)
  {
    if Contains(source, table[0].0) then 0
    else
      assert exists i :: 0 <= i < |table[1..]| && Contains(source, table[1..][i].0) by {
        var i :| 0 <= i < |table| && Contains(source, table[i].0);
        assert i > 0 && table[1..][i - 1] == table[i];
      }
      1 + FirstContained(source, table[1..])
  }

  function ExtractRegion(source: string): (r: string)
    ensures r == "France" || r == "USA" || r == "UK" || r == ""
    ensures r == "France" <==> Contains(source, "france")
    ensures r == "USA" <==> !Contains(source, "france") && Contains(source, "usa")
    ensures r == "UK" <==> !Contains(source, "france") && !Contains(source, "usa") && Contains(source, "uk")
  {
    if Contains(source, "france") then "France"
    else if Contains(source, "usa") then "USA"
    else if Contains(source, "uk") then "UK"
    else ""
  }

  // ---- Description cleaning ----

  /** The first index of `c` in `s`. */
  function IndexOf(s: string, c: char): (r: Option<nat>)
    ensures r.Some? ==> r.value < |s| && s[r.value] == c && c !in s[..r.value]
    ensures r.None? ==> c !in s
  {
    if s == [] then None
    else if s[0] == c then Some(0)
    else match IndexOf(s[1..], c)
      case None => None
      case Some(k) => assert s[..k + 1] == [s[0]] + s[1..][..k]; Some(k + 1)
  }

  /** `s.replace(/<[^>]*>/g, '')`: every '<' with a later '>' is removed
      together with everything up to that '>'. Afterwards no '<' is followed
      by a '>', so no markup tag survives. */
  function StripTags(s: string): (r: string)
    ensures |r| <= |s|
    ensures forall i, j :: 0 <= i < j < |r| && r[i] == '<' ==> r[j] != '>'
    decreases |s|
  {
    if s == [] then []
    else if s[0] == '<' then
      match IndexOf(s[1..], '>')
      case Some(k) => StripTags(s[k + 2..])
      case None => s
    else [s[0]] + StripTags(s[1..])
  }

  /** A character other than '<' is kept as it is. */
  lemma StripTagsCons(c: char, b: string)
    requires c != '<'
    ensures StripTags([c] + b) == [c] + StripTags(b)
  {
    assert ([c] + b)[0] == c && ([c] + b)[1..] == b;
  }

  /** Text before the first '<' is kept as it is, and the stripping goes on
      behind it. */
  lemma {:induction false} StripTagsKeepsText(a: string, b: string)
    requires '<' !in a
    ensures StripTags(a + b) == a + StripTags(b)
    decreases |a|
  {
    if a == [] {
      assert a + b == b;
    } else {
      var c, t := a[0], a[1..];
      assert a == [c] + t;
      assert a + b == [c] + (t + b);
      StripTagsCons(c, t + b);
      StripTagsKeepsText(t, b);
      ConsAppend(c, t, StripTags(b));
    }
  }

  /** A complete tag is removed, up to and including its first '>'. */
  lemma StripTagsDropsTag(tag: string, rest: string)
    requires '>' !in tag
    ensures StripTags("<" + tag + ">" + rest) == StripTags(rest)
  {
    var s := "<" + tag + ">" + rest;
    var t := s[1..];
    assert t == tag + ">" + rest;
    assert t[..|tag|] == tag && t[|tag|] == '>';
    var r := IndexOf(t, '>');
    assert r.Some?;
    assert r.value == |tag|;
    assert s[|tag| + 2..] == rest;
  }

  /** A '<' with no '>' after it is kept, with everything behind it. */
  lemma StripTagsKeepsUnclosed(t: string)
    requires '>' !in t
    ensures StripTags("<" + t) == "<" + t
  {
    assert ("<" + t)[1..] == t;
  }

  /** Text without '<' is left unchanged. */
  lemma StripTagsKeepsPlain(s: string)
    requires '<' !in s
    ensures StripTags(s) == s
  {
    StripTagsKeepsText(s, []);
    assert s + [] == s;
  }

  /** The entity replacements, applied one after another in this order. No
      replacement lengthens the text, and text without '&' is left
      unchanged. */
  function DecodeEntities(s: string): (r: string)
    ensures |r| <= |s|
    ensures '&' !in s ==> r == s
  {
    var a := ReplaceAll(s, "&nbsp;", " ");
    var b := ReplaceAll(a, "&amp;", "&");
    var c := ReplaceAll(b, "&lt;", "<");
    var d := ReplaceAll(c, "&gt;", ">");
    var e := ReplaceAll(d, "&quot;", "\"");
    var f := ReplaceAll(e, "&#39;", "'");
    assert '&' !in s ==> f == s by {
      if '&' !in s {
        EntitiesKeepPlain(s);
      }
    }
    f
  }

  /** Each entity pattern starts with '&', so text without '&' passes
      through every replacement unchanged. */
  lemma EntitiesKeepPlain(s: string)
    requires '&' !in s
    ensures ReplaceAll(s, "&nbsp;", " ") == s
    ensures ReplaceAll(s, "&amp;", "&") == s
    ensures ReplaceAll(s, "&lt;", "<") == s
    ensures ReplaceAll(s, "&gt;", ">") == s
    ensures ReplaceAll(s, "&quot;", "\"") == s
    ensures ReplaceAll(s, "&#39;", "'") == s
  {
    ReplaceAllKeepsPlain(s, "&nbsp;", " ");
    ReplaceAllKeepsPlain(s, "&amp;", "&");
    ReplaceAllKeepsPlain(s, "&lt;", "<");
    ReplaceAllKeepsPlain(s, "&gt;", ">");
    ReplaceAllKeepsPlain(s, "&quot;", "\"");
    ReplaceAllKeepsPlain(s, "&#39;", "'");
  }

  /** Positions `i` and `i + 1` both hold whitespace. */
  predicate WhitespacePair(s: string, i: nat)
    requires i + 1 < |s|
  {
    IsWhitespace(s[i]) && IsWhitespace(s[i + 1])
  }

  /** No two adjacent characters are both whitespace. */
  predicate NoDoubleWhitespace(s: string) {
    forall i: nat :: i + 1 < |s| ==> !WhitespacePair(s, i)
  }

  /** The only whitespace character present is the plain space. */
  predicate OnlySpaces(s: string) {
    forall i :: 0 <= i < |s| && IsWhitespace(s[i]) ==> s[i] == ' '
  }

  /** Prefixing one character to a collapsed string keeps it collapsed when
      the two characters at the seam are not both whitespace. */
  lemma ConsCollapsed(c: char, t: string)
    requires NoDoubleWhitespace(t) && OnlySpaces(t)
    requires IsWhitespace(c) ==> c == ' ' && (t == [] || !IsWhitespace(t[0]))
    ensures NoDoubleWhitespace([c] + t) && OnlySpaces([c] + t)
  {
    var r := [c] + t;
    forall i: nat | i + 1 < |r|
      ensures !WhitespacePair(r, i)
    {
      if i > 0 {
        assert !WhitespacePair(t, i - 1);
      }
    }
  }

  /** `s.replace(/\s+/g, ' ')`. */
  function CollapseWhitespace(s: string): (r: string)
    ensures NoDoubleWhitespace(r) && OnlySpaces(r)
    ensures s == [] <==> r == []
    ensures s != [] && IsWhitespace(s[0]) ==> r[0] == ' '
    ensures s != [] && !IsWhitespace(s[0]) ==> r[0] == s[0]
    ensures !IsBlank(s) ==> !IsBlank(r)
    decreases |s|
  {
    if s == [] then []
    else if IsWhitespace(s[0]) then
      var t := TrimStart(s);
      assert t != s;
      var rest := CollapseWhitespace(t);
      ConsCollapsed(' ', rest);
      var r := [' '] + rest;
      assert !IsBlank(s) ==> !IsBlank(r) by {
        if !IsBlank(s) {
          assert t != [] && r[1] == t[0];
        }
      }
      r
    else
      var rest := CollapseWhitespace(s[1..]);
      ConsCollapsed(s[0], rest);
      [s[0]] + rest
  }

  /** No character is whitespace. */
  predicate NoWhitespace(w: string) {
    forall i :: 0 <= i < |w| ==> !IsWhitespace(w[i])
  }

  /** A character that is not whitespace is copied as it is. */
  lemma CollapseCons(c: char, b: string)
    requires !IsWhitespace(c)
    ensures CollapseWhitespace([c] + b) == [c] + CollapseWhitespace(b)
  {
    assert ([c] + b)[0] == c && ([c] + b)[1..] == b;
  }

  /** Text without whitespace is copied as it is, and the collapsing goes
      on behind it. */
  lemma {:induction false} CollapseKeepsWord(a: string, b: string)
    requires NoWhitespace(a)
    ensures CollapseWhitespace(a + b) == a + CollapseWhitespace(b)
    decreases |a|
  {
    if a == [] {
      assert a + b == b;
    } else {
      assert a + b == [a[0]] + (a[1..] + b);
      CollapseCons(a[0], a[1..] + b);
      assert NoWhitespace(a[1..]) by {
        forall i | 0 <= i < |a| - 1 ensures !IsWhitespace(a[1..][i]) {
          assert a[1..][i] == a[i + 1];
        }
      }
      CollapseKeepsWord(a[1..], b);
      ConsAppend(a[0], a[1..], CollapseWhitespace(b));
      assert [a[0]] + a[1..] == a;
    }
  }

  /** A whole whitespace run, whatever its characters, becomes one space. */
  lemma CollapseRun(w: string, b: string)
    requires w != [] && IsBlank(w) && (b == [] || !IsWhitespace(b[0]))
    ensures CollapseWhitespace(w + b) == " " + CollapseWhitespace(b)
  {
    assert (w + b)[0] == w[0];
    TrimStartBlank(w, b);
  }

  /** Text whose whitespace is already single spaces is left unchanged. */
  lemma {:induction false} CollapseKeepsCollapsed(s: string)
    requires NoDoubleWhitespace(s) && OnlySpaces(s)
    ensures CollapseWhitespace(s) == s
    decreases |s|
  {
    if s != [] {
      var c, t := s[0], s[1..];
      assert s == [c] + t;
      CollapsedSlice(s, 1, |s|);
      assert s[1..|s|] == t;
      CollapseKeepsCollapsed(t);
      if IsWhitespace(c) {
        assert t == [] || !IsWhitespace(t[0]) by {
          if |s| > 1 {
            assert !WhitespacePair(s, 0);
          }
        }
        CollapseRun([c], t);
      } else {
        CollapseCons(c, t);
      }
    }
  }

  /** Every slice of a collapsed string is collapsed. */
  lemma CollapsedSlice(c: string, a: nat, b: nat)
    requires a <= b <= |c| && NoDoubleWhitespace(c) && OnlySpaces(c)
    ensures NoDoubleWhitespace(c[a..b]) && OnlySpaces(c[a..b])
  {
    var t := c[a..b];
    forall i: nat | i + 1 < |t|
      ensures !WhitespacePair(t, i)
    {
      assert !WhitespacePair(c, a + i);
    }
  }

  /** Trimming a collapsed string keeps it collapsed. */
  lemma TrimKeepsSpacing(c: string)
    requires NoDoubleWhitespace(c) && OnlySpaces(c)
    ensures NoDoubleWhitespace(Trim(c)) && OnlySpaces(Trim(c))
  {
    var t := TrimStart(c);
    CollapsedSlice(c, |c| - |t|, |c|);
    assert c[|c| - |t|..|c|] == t;
    CollapsedSlice(t, 0, |TrimEnd(t)|);
    assert t[0..|TrimEnd(t)|] == TrimEnd(t) == Trim(c);
  }

  /** The first 5000 characters of a text, or all of it when it is shorter. */
  function Cut(t: string): (r: string)
    ensures |r| <= MaxDescriptionLength
  {
    if |t| <= MaxDescriptionLength then t else t[..MaxDescriptionLength]
  }

  /** Cutting a trimmed, collapsed text keeps it collapsed and its start
      trimmed; its end stays trimmed unless the cut fell inside the text. */
  lemma CutKeepsShape(t: string)
    requires NoDoubleWhitespace(t) && OnlySpaces(t)
    requires t == [] || (!IsWhitespace(t[0]) && !IsWhitespace(t[|t| - 1]))
    ensures Cut(t) == [] || !IsWhitespace(Cut(t)[0])
    ensures |Cut(t)| < MaxDescriptionLength ==> Cut(t) == [] || !IsWhitespace(Cut(t)[|Cut(t)| - 1])
    ensures NoDoubleWhitespace(Cut(t)) && OnlySpaces(Cut(t))
  {
    var r := Cut(t);
    CollapsedSlice(t, 0, |r|);
    assert t[0..|r|] == r;
  }

  /** The trim and the 5000-character cut applied to a collapsed text. */
  function TrimAndCut(c: string): (r: string)
    requires NoDoubleWhitespace(c) && OnlySpaces(c)
    ensures |r| <= MaxDescriptionLength
    ensures r == [] || !IsWhitespace(r[0])
    ensures |r| < MaxDescriptionLength ==> r == [] || !IsWhitespace(r[|r| - 1])
    ensures NoDoubleWhitespace(r) && OnlySpaces(r)
  {
    TrimCutShape(c);
    Cut(Trim(c))
  }

  /** The shape `TrimAndCut` promises, for the cut of the trimmed text. */
  lemma TrimCutShape(c: string)
    requires NoDoubleWhitespace(c) && OnlySpaces(c)
    ensures var r := Cut(Trim(c));
            && |r| <= MaxDescriptionLength
            && (r == [] || !IsWhitespace(r[0]))
            && (|r| < MaxDescriptionLength ==> r == [] || !IsWhitespace(r[|r| - 1]))
            && NoDoubleWhitespace(r) && OnlySpaces(r)
  {
    TrimKeepsSpacing(c);
    CutKeepsShape(Trim(c));
  }

  /** `cleanDescription`: markup stripped, entities decoded, whitespace runs
      collapsed to one space, trimmed and cut to 5000 characters. */
  function CleanDescription(d: string): (r: string)
    ensures d == "" ==> r == ""
    ensures |r| <= MaxDescriptionLength
    ensures r == [] || !IsWhitespace(r[0])
    ensures |r| < MaxDescriptionLength ==> r == [] || !IsWhitespace(r[|r| - 1])
    ensures NoDoubleWhitespace(r) && OnlySpaces(r)
  {
    if d == "" then "" else TrimAndCut(CollapseWhitespace(DecodeEntities(StripTags(d))))
  }

  /** Text without markup or entities loses only whitespace: each run
      becomes one space, the ends are trimmed and the text is cut to 5000
      characters; every other character is kept, in order. */
  lemma CleanDescriptionOfPlainText(d: string)
    requires '<' !in d && '&' !in d
    ensures CleanDescription(d) == TrimAndCut(CollapseWhitespace(d))
  {
    StripTagsKeepsPlain(d);
  }

  /** A trimmed description of at most 5000 characters, single-spaced and
      without markup or entities, comes out unchanged. */
  lemma CleanDescriptionKeepsCleanText(d: string)
    requires '<' !in d && '&' !in d && NoDoubleWhitespace(d) && OnlySpaces(d)
    requires d == [] || (!IsWhitespace(d[0]) && !IsWhitespace(d[|d| - 1]))
    requires |d| <= MaxDescriptionLength
    ensures CleanDescription(d) == d
  {
    CleanDescriptionOfPlainText(d);
    CollapseKeepsCollapsed(d);
    TrimAndCutKeeps(d);
  }

  /** A collapsed text that is already trimmed and short enough passes the
      trim and the cut unchanged. */
  lemma TrimAndCutKeeps(c: string)
    requires NoDoubleWhitespace(c) && OnlySpaces(c)
    requires c == [] || (!IsWhitespace(c[0]) && !IsWhitespace(c[|c| - 1]))
    requires |c| <= MaxDescriptionLength
    ensures TrimAndCut(c) == c
  {
    TrimKeepsTrimmed(c);
  }

  /** The four stages of the cleaning, one after another. */
  lemma CleanDescriptionSteps(d: string, stripped: string, decoded: string, collapsed: string)
    requires d != "" && StripTags(d) == stripped && DecodeEntities(stripped) == decoded
    requires CollapseWhitespace(decoded) == collapsed
    ensures CleanDescription(d) == TrimAndCut(collapsed)
  {
  }

  /** A word: non-empty, with no whitespace, markup or entity character. */
  predicate PlainWord(w: string) {
    w != [] && '<' !in w && '&' !in w && NoWhitespace(w)
  }

  /** The markup of the description example: `<p>x <strong>y</strong>
      &nbsp; z</p>`. */
  function MarkupExample(x: string, y: string, z: string): string {
    "<p>" + (x + (" " + ("<strong>" + (y + ("</strong>" + (" &nbsp; " + (z + "</p>")))))))
  }

  /** The tags of the example are stripped and nothing else is. */
  lemma MarkupExampleStripped(x: string, y: string, z: string)
    requires '<' !in x && '<' !in y && '<' !in z
    ensures StripTags(MarkupExample(x, y, z)) == x + (" " + (y + (" &nbsp; " + z)))
  {
    var r4 := " &nbsp; " + (z + "</p>");
    var r3 := y + ("</strong>" + r4);
    var r1 := x + (" " + ("<strong>" + r3));
    assert "<p>" == "<" + "p" + ">" && "<strong>" == "<" + "strong" + ">";
    assert "</strong>" == "<" + "/strong" + ">" && "</p>" == "<" + "/p" + ">" + "";
    StripTagsDropsTag("/p", "");
    StripTagsKeepsText(z, "</p>");
    assert z + "" == z;
    StripTagsKeepsText(" &nbsp; ", z + "</p>");
    StripTagsDropsTag("/strong", r4);
    StripTagsKeepsText(y, "</strong>" + r4);
    StripTagsDropsTag("strong", r3);
    StripTagsKeepsText(" ", "<strong>" + r3);
    StripTagsKeepsText(x, " " + ("<strong>" + r3));
    StripTagsDropsTag("p", r1);
  }

  /** The one entity of the example becomes a space. */
  lemma MarkupExampleDecoded(x: string, y: string, z: string)
    requires '&' !in x && '&' !in y && '&' !in z
    ensures DecodeEntities(x + (" " + (y + (" &nbsp; " + z)))) == x + (" " + (y + ("   " + z)))
  {
    var tail := "&nbsp;" + (" " + z);
    assert " &nbsp; " == (" " + "&nbsp;") + " ";
    AppendAssoc(" " + "&nbsp;", " ", z);
    AppendAssoc(" ", "&nbsp;", " " + z);
    assert " &nbsp; " + z == " " + tail;
    ReplaceAllAtFront(" " + z, "&nbsp;", " ");
    ReplaceAllKeepsPlain(" " + z, "&nbsp;", " ");
    ReplaceAllKeepsText(" ", tail, "&nbsp;", " ");
    ReplaceAllKeepsText(y, " " + tail, "&nbsp;", " ");
    ReplaceAllKeepsText(" ", y + (" " + tail), "&nbsp;", " ");
    ReplaceAllKeepsText(x, " " + (y + (" " + tail)), "&nbsp;", " ");
    assert "   " + z == " " + (" " + (" " + z)) by {
      assert "   " == (" " + " ") + " ";
      AppendAssoc(" " + " ", " ", z);
      AppendAssoc(" ", " ", " " + z);
    }
    var decoded := x + (" " + (y + ("   " + z)));
    assert '&' !in decoded;
    EntitiesKeepPlain(decoded);
  }

  /** The spaces of the decoded example collapse to one between words. */
  lemma MarkupExampleCollapsed(x: string, y: string, z: string)
    requires NoWhitespace(x) && NoWhitespace(y) && NoWhitespace(z) && z != []
    requires y != []
    ensures CollapseWhitespace(x + (" " + (y + ("   " + z)))) == x + (" " + (y + (" " + z)))
  {
    CollapseTail(y, z);
    CollapseRun(" ", y + ("   " + z));
    CollapseKeepsWord(x, " " + (y + ("   " + z)));
  }

  /** The second half of the collapsing: `y` and a three-space run before `z`. */
  lemma CollapseTail(y: string, z: string)
    requires NoWhitespace(y) && NoWhitespace(z) && z != []
    ensures CollapseWhitespace(y + ("   " + z)) == y + (" " + z)
  {
    CollapseKeepsWord(z, "");
    assert z + "" == z;
    CollapseRun("   ", z);
    CollapseKeepsWord(y, "   " + z);
  }

  /** The example, for any three words: the tags go, `&nbsp;` becomes a
      space, the run of spaces around it becomes one, and the words survive
      in order. */
  lemma CleanDescriptionKeepsWords(x: string, y: string, z: string)
    requires PlainWord(x) && PlainWord(y) && PlainWord(z)
    requires |x| + |y| + |z| + 2 <= MaxDescriptionLength
    ensures CleanDescription(MarkupExample(x, y, z)) == x + " " + y + " " + z
  {
    var d := MarkupExample(x, y, z);
    var c := x + (" " + (y + (" " + z)));
    MarkupExampleStripped(x, y, z);
    MarkupExampleDecoded(x, y, z);
    MarkupExampleCollapsed(x, y, z);
    CleanDescriptionSteps(d, x + (" " + (y + (" &nbsp; " + z))), x + (" " + (y + ("   " + z))), c);
    JoinedWordsTrimmed(x, y, z);
  }

  /** Three words joined by single spaces pass the trim and the cut
      unchanged. */
  lemma JoinedWordsTrimmed(x: string, y: string, z: string)
    requires PlainWord(x) && PlainWord(y) && PlainWord(z)
    requires |x| + |y| + |z| + 2 <= MaxDescriptionLength
    requires var c := x + (" " + (y + (" " + z))); NoDoubleWhitespace(c) && OnlySpaces(c)
    ensures TrimAndCut(x + (" " + (y + (" " + z)))) == x + " " + y + " " + z
  {
    var c := x + (" " + (y + (" " + z)));
    assert c[0] == x[0];
    assert c == (x + " " + y + " ") + z && c[|c| - 1] == z[|z| - 1];
    TrimAndCutKeeps(c);
  }

  /** The example with the words "Great", "opportunity" and "here", as the
      transformer's own test states it. */
  lemma CleanDescriptionExample()
    ensures CleanDescription(MarkupExample("Great", "opportunity", "here"))
            == "Great" + " " + "opportunity" + " " + "here"
  {
    CleanDescriptionKeepsWords("Great", "opportunity", "here");
  }

  // ---- The transform ----

  /** `String(guid || id || generateJobId(raw)).trim()`. */
  function ResolveJobId(m: Fields, digest: string -> string): (id: string)
    ensures Truthy(m, "guid") ==> id == Trim(Shown(m["guid"]))
    ensures !Truthy(m, "guid") && Truthy(m, "id") ==> id == Trim(Shown(m["id"]))
    ensures !Truthy(m, "guid") && !Truthy(m, "id") ==> id == Trim(GenerateJobId(m, digest))
  {
    Trim(Shown(Or(m, "guid", Or(m, "id", Text(GenerateJobId(m, digest))))))
  }

  /** Two items with the same truthy `guid` get the same identifier, however
      their other fields differ. */
  lemma GuidDecidesJobId(a: Fields, b: Fields, digest: string -> string)
    requires Truthy(a, "guid") && "guid" in b && b["guid"] == a["guid"]
    ensures ResolveJobId(a, digest) == ResolveJobId(b, digest)
  {
  }

  /** `title || 'Untitled Position'`. */
  function ResolveTitle(m: Fields): (t: Value)
    ensures Truthy(m, "title") ==> t == m["title"]
    ensures !Truthy(m, "title") ==> t == Text("Untitled Position")
  {
    Or(m, "title", Text("Untitled Position"))
  }

  /** `company || company_name || organization || 'Unknown'`. */
  function ResolveCompany(m: Fields): (c: string)
    ensures Truthy(m, "company") ==> c == Shown(m["company"])
    ensures !Truthy(m, "company") && Truthy(m, "company_name") ==> c == Shown(m["company_name"])
    ensures (!Truthy(m, "company") && !Truthy(m, "company_name") && Truthy(m, "organization"))
              ==> c == Shown(m["organization"])
    ensures (!Truthy(m, "company") && !Truthy(m, "company_name") && !Truthy(m, "organization"))
              ==> c == "Unknown"
  {
    Shown(Or(m, "company", Or(m, "company_name", Or(m, "organization", Text("Unknown")))))
  }

  /** `location || region || city || 'Remote'`. */
  function ResolveLocation(m: Fields): (l: string)
    ensures Truthy(m, "location") ==> l == Shown(m["location"])
    ensures !Truthy(m, "location") && Truthy(m, "region") ==> l == Shown(m["region"])
    ensures (!Truthy(m, "location") && !Truthy(m, "region") && Truthy(m, "city")) ==> l == Shown(m["city"])
    ensures (!Truthy(m, "location") && !Truthy(m, "region") && !Truthy(m, "city")) ==> l == "Remote"
  {
    Shown(Or(m, "location", Or(m, "region", Or(m, "city", Text("Remote")))))
  }

  /** `link || url || guid || ''`. */
  function ResolveUrl(m: Fields): (u: Value)
    ensures Truthy(m, "link") ==> u == m["link"]
    ensures !Truthy(m, "link") && Truthy(m, "url") ==> u == m["url"]
    ensures (!Truthy(m, "link") && !Truthy(m, "url") && Truthy(m, "guid")) ==> u == m["guid"]
    ensures (!Truthy(m, "link") && !Truthy(m, "url") && !Truthy(m, "guid")) ==> u == Text("")
  {
    Or(m, "link", Or(m, "url", Or(m, "guid", Text(""))))
  }

  /** `job_type || jobType || type || extractJobType(source)`; the final
      'Full-time' default of the source is unreachable because the lookup
      never yields an empty string. The text is empty only for a nested value
      that prints as nothing. */
  function ResolveJobType(m: Fields, source: string): (t: string)
    ensures Truthy(m, "job_type") ==> t == Shown(m["job_type"])
    ensures !Truthy(m, "job_type") && Truthy(m, "jobType") ==> t == Shown(m["jobType"])
    ensures (!Truthy(m, "job_type") && !Truthy(m, "jobType") && Truthy(m, "type")) ==> t == Shown(m["type"])
    ensures (!Truthy(m, "job_type") && !Truthy(m, "jobType") && !Truthy(m, "type"))
              ==> t == ExtractJobType(source)
    ensures t != "" || NestedAt(m, "job_type") || NestedAt(m, "jobType") || NestedAt(m, "type")
  {
    Shown(Or(m, "job_type", Or(m, "jobType", Or(m, "type", Text(ExtractJobType(source))))))
  }

  /** `category || categories || job_category || extractCategory(source)`. */
  function ResolveCategory(m: Fields, source: string): (c: string)
    ensures Truthy(m, "category") ==> c == Shown(m["category"])
    ensures !Truthy(m, "category") && Truthy(m, "categories") ==> c == Shown(m["categories"])
    ensures (!Truthy(m, "category") && !Truthy(m, "categories") && Truthy(m, "job_category"))
              ==> c == Shown(m["job_category"])
    ensures (!Truthy(m, "category") && !Truthy(m, "categories") && !Truthy(m, "job_category"))
              ==> c == ExtractCategory(source)
    ensures c != "" || NestedAt(m, "category") || NestedAt(m, "categories") || NestedAt(m, "job_category")
  {
    Shown(Or(m, "category", Or(m, "categories", Or(m, "job_category", Text(ExtractCategory(source))))))
  }

  /** `region || location || extractRegion(source) || ''`. */
  function ResolveRegion(m: Fields, source: string): (g: string)
    ensures Truthy(m, "region") ==> g == Shown(m["region"])
    ensures !Truthy(m, "region") && Truthy(m, "location") ==> g == Shown(m["location"])
    ensures (!Truthy(m, "region") && !Truthy(m, "location")) ==> g == ExtractRegion(source)
  {
    Shown(Or(m, "region", Or(m, "location", Text(ExtractRegion(source)))))
  }

  function ResolvePublished(m: Fields): Published {
    if Truthy(m, "pubdate") || Truthy(m, "pubDate") || Truthy(m, "published") || Truthy(m, "publishedDate")
    then FeedDate(Shown(Or(m, "pubdate", Or(m, "pubDate", Or(m, "published", Or(m, "publishedDate", Text("")))))))
    else TransformTime
  }

  /** `description || content:encoded || content || summary || ''`. */
  function DescriptionValue(m: Fields): Value {
    Or(m, "description", Or(m, "content:encoded", Or(m, "content", Or(m, "summary", Text("")))))
  }

  /** The posting built from a non-null item's fields. */
  function Normalize(m: Fields, source: string, digest: string -> string): Job
    requires DescriptionValue(m).Text?
  {
    Job(
      jobId := ResolveJobId(m, digest),
      title := ResolveTitle(m),
      company := ResolveCompany(m),
      location := ResolveLocation(m),
      description := CleanDescription(DescriptionValue(m).text),
      url := ResolveUrl(m),
      publishedDate := ResolvePublished(m),
      jobType := ResolveJobType(m, source),
      category := ResolveCategory(m, source),
      region := ResolveRegion(m, source),
      salary := Shown(Or(m, "salary", Or(m, "compensation", Text("")))),
      source := source,
      rawData := m,
      isActive := true)
  }

  /** The items the transform accepts: not null, and not ones whose
      description alias chain stops at a nested value. */
  predicate Transformable(raw: RawItem) {
    raw.Item? && DescriptionValue(raw.fields).Text?
  }

  /** `transformJobData`: a null item throws on its first property read; an
      item whose description is an object or array throws in
      `cleanDescription` (it has no `replace`); any other item yields a
      posting that records its source feed, is active, and has a bounded
      description. */
  function Transform(raw: RawItem, source: string, digest: string -> string): (r: Result<Job>)
    ensures r.Success? <==> Transformable(raw)
    ensures raw.NullItem? ==> r == Failure(NullItemError)
    ensures raw.Item? && DescriptionValue(raw.fields).Nested? ==> r == Failure(DescriptionError)
    ensures r.Success? ==> r.value.source == source && r.value.isActive && r.value.rawData == raw.fields
    ensures r.Success? ==> |r.value.description| <= MaxDescriptionLength
    ensures r.Success? && Truthy(raw.fields, "guid") ==> r.value.jobId == Trim(Shown(raw.fields["guid"]))
  {
    match raw
    case NullItem => Failure(NullItemError)
    case Item(m) =>
      if DescriptionValue(m).Nested? then Failure(DescriptionError)
      else Success(Normalize(m, source, digest))
  }

  /** Every item with a nested `guid` (an element with attributes, such as
      `<guid isPermaLink="false">`) that the transform accepts gets the same
      jobId, the trimmed text of a plain object, whatever its guid says. */
  lemma NestedGuidsShareJobId(a: Fields, b: Fields, source: string, digest: string -> string)
    requires "guid" in a && a["guid"] == Nested(ObjectText)
    requires "guid" in b && b["guid"] == Nested(ObjectText)
    requires Transformable(Item(a)) && Transformable(Item(b))
    ensures Transform(Item(a), source, digest).value.jobId == Transform(Item(b), source, digest).value.jobId
                                                          == Trim(ObjectText)
  {
  }

  // ---- Validation ----

  datatype Validation = Validation(isValid: bool, errors: seq<string>)

  /** The four required-field messages, in the order they are checked. */
  const RequiredMessages: seq<string> :=
    ["jobId is required", "title is required", "url is required", "source is required"]

  /** The required fields, in the same order (as text). */
  function RequiredValues(job: Job): seq<string> {
    [job.jobId, Shown(job.title), Shown(job.url), job.source]
  }

  /** What `.trim()` on an object title or URL throws. */
  const TitleTrimError := "job.title.trim is not a function"

  const UrlTrimError := "job.url.trim is not a function"

  /** `!value || value.trim() === ''` for a text field: by the contract of
      `Trim`, exactly the all-whitespace strings (see `MissingIsTrimEmpty`). */
  predicate Missing(value: string) {
    IsBlank(value)
  }

  lemma MissingIsTrimEmpty(value: string)
    ensures Missing(value) <==> Trim(value) == ""
  {
  }

  /** How many of the first `k` values are missing. */
  function CountMissing(values: seq<string>, k: nat): (n: nat)
    requires k <= |values|
    ensures n <= k
    ensures n == 0 <==> forall i :: 0 <= i < k ==> !Missing(values[i])
  {
    if k == 0 then 0 else CountMissing(values, k - 1) + (if Missing(values[k - 1]) then 1 else 0)
  }

  /** The messages for the missing fields among the first `k`, in field
      order; `messages[i]` is the message of field `i`. */
  function MissingUpTo(values: seq<string>, messages: seq<string>, k: nat): seq<string>
    requires |values| == |messages| && k <= |values|
  {
    if k == 0 then []
    else MissingUpTo(values, messages, k - 1) + (if Missing(values[k - 1]) then [messages[k - 1]] else [])
  }

  /** One message per missing field: the message of missing field `i` sits
      right after those of the missing fields before it. */
  lemma {:induction false} MissingUpToSpec(values: seq<string>, messages: seq<string>, k: nat)
    requires |values| == |messages| && k <= |values|
    ensures |MissingUpTo(values, messages, k)| == CountMissing(values, k)
    ensures forall a :: 0 <= a < |MissingUpTo(values, messages, k)| ==> MissingUpTo(values, messages, k)[a] in messages
    ensures forall i :: 0 <= i < k && Missing(values[i]) ==>
              CountMissing(values, i) < |MissingUpTo(values, messages, k)|
              && MissingUpTo(values, messages, k)[CountMissing(values, i)] == messages[i]
  {
    MissingUpToLength(values, messages, k);
    MissingUpToMessages(values, messages, k);
    forall i | 0 <= i < k && Missing(values[i])
      ensures CountMissing(values, i) < |MissingUpTo(values, messages, k)|
              && MissingUpTo(values, messages, k)[CountMissing(values, i)] == messages[i]
    {
      MissingUpToAt(values, messages, k, i);
    }
  }

  /** One message per missing field. */
  lemma {:induction false} MissingUpToLength(values: seq<string>, messages: seq<string>, k: nat)
    requires |values| == |messages| && k <= |values|
    ensures |MissingUpTo(values, messages, k)| == CountMissing(values, k)
  {
    if k > 0 {
      MissingUpToLength(values, messages, k - 1);
    }
  }

  /** The message of missing field `i` sits right after those of the missing
      fields before it, whatever fields follow. */
  lemma {:induction false} MissingUpToAt(values: seq<string>, messages: seq<string>, k: nat, i: nat)
    requires |values| == |messages| && i < k <= |values| && Missing(values[i])
    ensures CountMissing(values, i) < |MissingUpTo(values, messages, k)|
    ensures MissingUpTo(values, messages, k)[CountMissing(values, i)] == messages[i]
  {
    var prev := MissingUpTo(values, messages, k - 1);
    var cur := MissingUpTo(values, messages, k);
    var added := if Missing(values[k - 1]) then [messages[k - 1]] else [];
    assert cur == prev + added;
    if i < k - 1 {
      MissingUpToAt(values, messages, k - 1, i);
      assert cur[CountMissing(values, i)] == prev[CountMissing(values, i)];
    } else {
      MissingUpToLength(values, messages, k - 1);
      assert CountMissing(values, i) == |prev| && added == [messages[i]];
    }
  }

  /** Every message collected is one of the fields' messages. */
  lemma {:induction false} MissingUpToMessages(values: seq<string>, messages: seq<string>, k: nat)
    requires |values| == |messages| && k <= |values|
    ensures forall a :: 0 <= a < |MissingUpTo(values, messages, k)| ==> MissingUpTo(values, messages, k)[a] in messages
  {
    if k > 0 {
      MissingUpToMessages(values, messages, k - 1);
      var prev := MissingUpTo(values, messages, k - 1);
      var cur := MissingUpTo(values, messages, k);
      forall a | 0 <= a < |cur| ensures cur[a] in messages {
        if a < |prev| {
          assert cur[a] == prev[a];
        } else {
          assert cur[a] == messages[k - 1];
        }
      }
    }
  }

  /** `validateJobData`: an object title or URL is truthy, so the code calls
      `trim` on it and throws a TypeError (the title is checked first); text
      fields give the list of messages. */
  function ValidateJob(job: Job): (r: Result<Validation>)
    ensures r.Failure? <==> job.title.Nested? || job.url.Nested?
    ensures job.title.Nested? ==> r == Failure(TitleTrimError)
    ensures job.title.Text? && job.url.Nested? ==> r == Failure(UrlTrimError)
    ensures r.Success? ==> (r.value.isValid <==> r.value.errors == [])
  {
    if job.title.Nested? then Failure(TitleTrimError)
    else if job.url.Nested? then Failure(UrlTrimError)
    else
      var errors := MissingUpTo(RequiredValues(job), RequiredMessages, 4);
      Success(Validation(|errors| == 0, errors))
  }

  /** For a text title and URL: exactly one message per blank required field
      (jobId, title, url, source), in that order, all collected rather than
      only the first; valid iff there are none. */
  lemma ValidateJobSpec(job: Job)
    ensures ValidateJob(job).Success? <==> job.title.Text? && job.url.Text?
    ensures ValidateJob(job).Success? ==>
              var v := ValidateJob(job).value;
              && (v.isValid <==> forall i :: 0 <= i < 4 ==> !Missing(RequiredValues(job)[i]))
              && |v.errors| == CountMissing(RequiredValues(job), 4)
              && (forall e :: e in v.errors ==> e in RequiredMessages)
              && (forall i :: 0 <= i < 4 && Missing(RequiredValues(job)[i]) ==>
                    CountMissing(RequiredValues(job), i) < |v.errors|
                    && v.errors[CountMissing(RequiredValues(job), i)] == RequiredMessages[i])
  {
    MissingUpToSpec(RequiredValues(job), RequiredMessages, 4);
  }
}
