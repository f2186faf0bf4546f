/**
 The index-based macro replacer (macros/string_index_based_replacer.go). A URL is scanned
 once for `##name##` macros, the index bounds are cached, and every later call replays them.
 */
module MacroReplacer {

  predicate DelimiterAt(s: string, j: int) {
    0 <= j < |s| - 1 && s[j] == '#' && s[j + 1] == '#'
  }

  /** `strings.Index(s, "##")`: the left-most occurrence, or -1. */
  function Index(s: string): (r: int)
    ensures -1 <= r
    ensures r >= 0 ==> r + 2 <= |s|
  {
    if |s| < 2 then -1
    else if DelimiterAt(s, 0) then 0
    else
      var r := Index(s[1..]);
      if r == -1 then -1 else r + 1
  }

  lemma {:induction false} IndexIsLeftMost(s: string)
    ensures Index(s) >= 0 ==> DelimiterAt(s, Index(s))
    ensures forall j :: DelimiterAt(s, j) ==> 0 <= Index(s) <= j
  {
    if |s| >= 2 && !DelimiterAt(s, 0) {
      IndexIsLeftMost(s[1..]);
      assert forall j :: 0 < j ==> (DelimiterAt(s, j) <==> DelimiterAt(s[1..], j - 1));
    }
  }

  /** The first delimiter, if any, is at r. */
  lemma IndexIs(s: string, r: int)
    requires r == -1 || DelimiterAt(s, r)
    requires forall j :: DelimiterAt(s, j) ==> 0 <= r <= j
    ensures Index(s) == r
  {
    IndexIsLeftMost(s);
  }

  // ---------- Reference ----------

  /**
   Find a delimiter, find the next one, substitute the name between them, continue behind; an
   unmatched delimiter stays as it is.
   */
  function Expand(url: string, macros: string -> string): string
    decreases |url|
  {
    var open := Index(url);
    if open == -1 then url
    else
      var close := Index(url[open + 2..]);
      if close == -1 then url
      else url[..open] + macros(url[open + 2..open + 2 + close]) + Expand(url[open + 2 + close + 2..], macros)
  }

  // ---------- Templates ----------

  /** First and last index of every macro name. */
  datatype Template = Template(startingIndices: seq<int>, endingIndices: seq<int>)

  /** The template of url[from..], with indices into url. */
  function TemplateFrom(url: string, from: nat): Template
    requires from <= |url|
    decreases |url| - from
  {
    var open := Index(url[from..]);
    if open == -1 then Template([], [])
    else
      var start := from + open + 2;
      var close := Index(url[start..]);
      if close == -1 then Template([], [])
      else
        var rest := TemplateFrom(url, start + close + 2);
        Template([start] + rest.startingIndices, [start + close - 1] + rest.endingIndices)
  }

  function TemplateOf(url: string): Template {
    TemplateFrom(url, 0)
  }

  /** Without a delimiter, a search one character further on finds none either. */
  lemma NoDelimiterBehind(url: string, from: nat)
    requires from < |url| && Index(url[from..]) == -1
    ensures Index(url[from + 1..]) == -1
  {
    var s := url[from..];
    assert url[from + 1..] == s[1..];
    IndexIsLeftMost(s);
    assert forall j :: DelimiterAt(s[1..], j) ==> DelimiterAt(s, j + 1);
    IndexIs(s[1..], -1);
  }

  /** The macros found so far, followed by those of the rest, are all the macros. */
  ghost predicate Scanned(url: string, starts: seq<int>, ends: seq<int>, from: int) {
    && 0 <= from <= |url|
    && var rest := TemplateFrom(url, from);
    TemplateOf(url) == Template(starts + rest.startingIndices, ends + rest.endingIndices)
  }

  lemma ScanStarts(url: string)
    ensures Scanned(url, [], [], 0)
  {
  }

  lemma ScanEnds(url: string, starts: seq<int>, ends: seq<int>, from: nat)
    requires Scanned(url, starts, ends, from) && TemplateFrom(url, from) == Template([], [])
    ensures TemplateOf(url) == Template(starts, ends)
  {
    hide TemplateFrom;
    assert starts + [] == starts && ends + [] == ends;
  }

  lemma ShortTemplate(url: string, from: nat)
    requires |url| - 1 <= from <= |url|
    ensures TemplateFrom(url, from) == Template([], [])
  {
    assert |url[from..]| <= 1;
  }

  lemma ScanStep(url: string, starts: seq<int>, ends: seq<int>, from: nat, start: nat, close: nat)
    requires Scanned(url, starts, ends, from)
    requires Index(url[from..]) >= 0 && start == from + Index(url[from..]) + 2 && Index(url[start..]) == close
    ensures Scanned(url, starts + [start], ends + [start + close - 1], start + close + 2)
  {
    hide Index;
    var rest := TemplateFrom(url, start + close + 2);
    assert TemplateFrom(url, from) == Template([start] + rest.startingIndices, [start + close - 1] + rest.endingIndices);
    hide TemplateFrom;
    assert starts + ([start] + rest.startingIndices) == starts + [start] + rest.startingIndices;
    assert ends + ([start + close - 1] + rest.endingIndices) == ends + [start + close - 1] + rest.endingIndices;
  }

  /**
   The scan. The test for a missing delimiter compares the running index with -1, which detects
   it on the first round only; later rounds step back by one and then find no closing delimiter.
   */
  method ConstructTemplate(url: string) returns (tmplt: Template)
    ensures tmplt == TemplateOf(url)
  {
    hide Index, Scanned;
    var currentIndex: int := 0;
    var starts: seq<int>, ends: seq<int> := [], [];
    ScanStarts(url);
    while true
      invariant Scanned(url, starts, ends, currentIndex)
      invariant 0 <= currentIndex <= |url| && (currentIndex == 0 || currentIndex < |url| - 1)
      decreases |url| - currentIndex
    {
      ghost var from := currentIndex;
      currentIndex := currentIndex + Index(url[currentIndex..]);
      if currentIndex == -1 {
        ScanEnds(url, starts, ends, from);
        break;
      }
      if Index(url[from..]) == -1 {
        NoDelimiterBehind(url, from);
      }
      var startIndex := currentIndex + 2;
      var endingIndex := Index(url[startIndex..]);
      if endingIndex == -1 {
        ScanEnds(url, starts, ends, from);
        break;
      }
      ScanStep(url, starts, ends, from, startIndex, endingIndex);
      endingIndex := endingIndex + startIndex - 1;
      starts := starts + [startIndex];
      ends := ends + [endingIndex];
      currentIndex := endingIndex + 2 + 1;
      if currentIndex >= |url| - 1 {
        ShortTemplate(url, currentIndex);
        ScanEnds(url, starts, ends, currentIndex);
        break;
      }
    }
    tmplt := Template(starts, ends);
  }

  // ---------- The replacer and its cache ----------

  predicate Coherent(templates: map<string, Template>) {
    forall u :: u in templates ==> templates[u] == TemplateOf(u)
  }

  class Replacer {
    var templates: map<string, Template>

    constructor ()
      ensures Coherent(templates)
    {
      templates := map[];
    }

    /** Between the two locks another caller may have stored any of its own templates. */
    method GetTemplate(url: string) returns (template: Template)
      requires Coherent(templates)
      modifies this
      ensures Coherent(templates) && template == TemplateOf(url)
      ensures url in templates && old(templates.Keys) <= templates.Keys
    {
      if url in templates {
        return templates[url];
      }
      assert Coherent(templates) && templates.Keys <= templates.Keys;
      var others: map<string, Template> :| Coherent(others) && templates.Keys <= others.Keys;
      templates := others;
      template := ConstructTemplate(url);
      StoreKeepsCoherent(templates, url);
      templates := templates[url := template];
    }

    /** Appends the expanded URL to the builder, whatever was cached by earlier calls. */
    method Replace(builder: string, url: string, macros: string -> string) returns (result: string)
      requires Coherent(templates)
      modifies this
      ensures Coherent(templates)
      ensures result == builder + Expand(url, macros)
    {
      hide Coherent, TemplateFrom, Expand;
      var template := GetTemplate(url);
      TemplateLengths(url, 0);
      result := builder;
      assert url[0..] == url;
      var currentIndex := 0;
      for i := 0 to |template.startingIndices|
        invariant 0 <= currentIndex <= |url|
        invariant template.startingIndices[i..] == TemplateFrom(url, currentIndex).startingIndices
        invariant template.endingIndices[i..] == TemplateFrom(url, currentIndex).endingIndices
        invariant result + Expand(url[currentIndex..], macros) == builder + Expand(url, macros)
        invariant Coherent(templates)
      {
        var index := template.startingIndices[i];
        TemplateStep(url, currentIndex);
        ExpandStep(url, currentIndex, macros);
        var macro := url[index..template.endingIndices[i] + 1];
        ghost var previous, from := result, currentIndex;
        result := result + url[currentIndex..index - 2];
        var value := macros(macro);
        if value != "" {
          result := result + value;
        }
        currentIndex := index + |macro| + 2;
        assert result == previous + (url[from..index - 2] + macros(macro));
      }
      ExpandEnd(url, currentIndex, macros);
      result := result + url[currentIndex..];
    }
  }

  lemma StoreKeepsCoherent(templates: map<string, Template>, url: string)
    requires Coherent(templates)
    ensures Coherent(templates[url := TemplateOf(url)])
  {
  }

  lemma {:induction false} TemplateLengths(url: string, from: nat)
    requires from <= |url|
    ensures |TemplateFrom(url, from).startingIndices| == |TemplateFrom(url, from).endingIndices|
    decreases |url| - from
  {
    var open := Index(url[from..]);
    if open != -1 {
      var close := Index(url[from + open + 2..]);
      if close != -1 {
        TemplateLengths(url, from + open + 2 + close + 2);
      }
    }
  }

  /** The first macro of a template, and the template of what is behind it. */
  lemma TemplateStep(url: string, from: nat)
    requires from <= |url| && TemplateFrom(url, from).startingIndices != []
    ensures var t := TemplateFrom(url, from);
            && t.endingIndices != []
            && var start, end := t.startingIndices[0], t.endingIndices[0] + 1;
            && from + 2 <= start <= end <= |url| - 2
            && t.startingIndices[1..] == TemplateFrom(url, end + 2).startingIndices
            && t.endingIndices[1..] == TemplateFrom(url, end + 2).endingIndices
            && Index(url[from..]) == start - 2 - from && Index(url[start..]) == end - start
  {
    hide Index;
  }

  /** One macro of the template is one substitution of the reference. */
  lemma ExpandStep(url: string, from: nat, macros: string -> string)
    requires from <= |url| && TemplateFrom(url, from).startingIndices != []
    ensures var t := TemplateFrom(url, from);
            && t.endingIndices != []
            && var start, end := t.startingIndices[0], t.endingIndices[0] + 1;
            && from + 2 <= start <= end <= |url| - 2
            && Expand(url[from..], macros) == url[from..start - 2] + macros(url[start..end]) + Expand(url[end + 2..], macros)
  {
    hide Index, TemplateFrom, Expand;
    TemplateStep(url, from);
    var t := TemplateFrom(url, from);
    var start, end := t.startingIndices[0], t.endingIndices[0] + 1;
    var u, open := url[from..], start - 2 - from;
    assert u[open + 2..] == url[start..];
    ExpandOnce(u, macros, open, end - start);
    assert u[..open] == url[from..start - 2];
    assert u[open + 2..open + 2 + (end - start)] == url[start..end];
    assert u[open + 2 + (end - start) + 2..] == url[end + 2..];
  }

  lemma ExpandOnce(u: string, macros: string -> string, open: nat, close: nat)
    requires Index(u) == open && Index(u[open + 2..]) == close
    ensures Expand(u, macros) == u[..open] + macros(u[open + 2..open + 2 + close]) + Expand(u[open + 2 + close + 2..], macros)
  {
    hide Index;
  }

  lemma ExpandEnd(url: string, from: nat, macros: string -> string)
    requires from <= |url| && TemplateFrom(url, from).startingIndices == []
    ensures Expand(url[from..], macros) == url[from..]
  {
    var u := url[from..];
    if Index(u) != -1 {
      assert url[from + Index(u) + 2..] == u[Index(u) + 2..];
    }
  }

  // ---------- What expansion means ----------

  lemma DelimitersSplit(url: string, open: nat, close: nat)
    requires Index(url) == open && Index(url[open + 2..]) == close
    ensures url == url[..open] + ("##" + url[open + 2..open + 2 + close] + "##") + url[open + 2 + close + 2..]
  {
    IndexIsLeftMost(url);
    IndexIsLeftMost(url[open + 2..]);
    hide Index;
    assert url[open..open + 2] == "##" && url[open + 2 + close..open + 2 + close + 2] == "##";
  }

  /** A provider that maps every name to itself, delimiters included, leaves every URL unchanged. */
  lemma {:induction false} ExpandIdentity(url: string, macros: string -> string)
    requires forall name :: macros(name) == "##" + name + "##"
    ensures Expand(url, macros) == url
    decreases |url|
  {
    hide Index;
    var open := Index(url);
    if open != -1 {
      var behind := url[open + 2..];
      var close := Index(behind);
      if close != -1 {
        ExpandIdentity(behind[close + 2..], macros);
        assert behind[close + 2..] == url[open + 2 + close + 2..];
        DelimitersSplit(url, open, close);
      }
    }
  }

  /** Literal text and a macro name behind it. */
  datatype Part = Part(text: string, name: string)

  predicate NoHash(s: string) {
    forall i :: 0 <= i < |s| ==> s[i] != '#'
  }

  function Render(parts: seq<Part>, tail: string): string {
    if parts == [] then tail
    else parts[0].text + "##" + parts[0].name + "##" + Render(parts[1..], tail)
  }

  function Substitute(parts: seq<Part>, tail: string, macros: string -> string): string {
    if parts == [] then tail
    else parts[0].text + macros(parts[0].name) + Substitute(parts[1..], tail, macros)
  }

  lemma DelimiterBehindText(text: string, rest: string)
    requires NoHash(text)
    ensures Index(text + "##" + rest) == |text|
  {
    hide Index;
    var s := text + "##" + rest;
    assert forall j :: 0 <= j < |text| ==> s[j] == text[j];
    assert DelimiterAt(s, |text|);
    IndexIs(s, |text|);
  }

  /** In a URL built from plain text and macros, exactly the macros are substituted. */
  lemma {:induction false} ExpandSubstitutes(parts: seq<Part>, tail: string, macros: string -> string)
    requires NoHash(tail) && forall i :: 0 <= i < |parts| ==> NoHash(parts[i].text) && NoHash(parts[i].name)
    ensures Expand(Render(parts, tail), macros) == Substitute(parts, tail, macros)
  {
    hide Index;
    if parts == [] {
      IndexIs(tail, -1);
    } else {
      var p, rest := parts[0], Render(parts[1..], tail);
      var url := Render(parts, tail);
      var behind := p.name + "##" + rest;
      assert url == p.text + "##" + behind;
      DelimiterBehindText(p.text, behind);
      DelimiterBehindText(p.name, rest);
      assert url[|p.text| + 2..] == behind;
      assert url[|p.text| + 2 + |p.name| + 2..] == rest;
      assert url[..|p.text|] == p.text;
      assert url[|p.text| + 2..|p.text| + 2 + |p.name|] == p.name;
      ExpandSubstitutes(parts[1..], tail, macros);
    }
  }
}
