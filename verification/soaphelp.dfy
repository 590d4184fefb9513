/** SOAP marshaling helpers: the five-entity XML quote/unquote pair, integer
    formatting, decoding of action arguments and of event property sets into
    name -> value maps, the typed getters on a decoded map, and the builder of
    action bodies (section 3.2 of the UPnP Device Architecture 1.0 for
    actions, section 4.2 for event messages; section 4.6 of XML 1.0 for the
    predefined entities). */
module SoapHelp {
  import opened Common
  import opened Ixml

  // ---------------------------------------------------------------------
  // XML entity quoting

  /** The five characters that have a predefined entity. */
  predicate IsMarkup(c: char) {
    c == '"' || c == '&' || c == '<' || c == '>' || c == '\''
  }

  /** What xmlQuote writes for one input character. */
  function Escape(c: char): (e: string) {
    match c
    case '"' => "&quot;"
    case '&' => "&amp;"
    case '<' => "&lt;"
    case '>' => "&gt;"
    case '\'' => "&apos;"
    case _ => [c]
  }

  /** The character an entity name stands for, when it is one of the five. */
  function EntityChar(name: string): (c: Option<char>) {
    if name == "quot" then Some('"')
    else if name == "amp" then Some('&')
    else if name == "lt" then Some('<')
    else if name == "gt" then Some('>')
    else if name == "apos" then Some('\'')
    else None
  }

  /** The specification of xmlQuote: every character replaced by its escape. */
  function Quoted(s: string): (q: string)
    decreases |s|
  {
    if s == [] then [] else Escape(s[0]) + Quoted(s[1..])
  }

  /** Index of the first ';' of `s`, or |s| when there is none. */
  function SemiIdx(s: string): (j: nat)
    ensures j <= |s|
    ensures j < |s| ==> s[j] == ';'
    decreases |s|
  {
    if s == [] || s[0] == ';' then 0 else 1 + SemiIdx(s[1..])
  }

  /** What xmlUnquote writes for the complete reference s[i..j+1]. */
  function EntityText(s: string, i: nat, j: nat): (t: string)
    requires i < j < |s|
  {
    match EntityChar(s[i + 1..j])
    case Some(c) => [c]
    case None => s[i..j + 1]
  }

  /** The specification of xmlUnquote. An '&' followed later by ';' is an
      entity reference: one of the five names becomes its character, any
      other reference is kept as written, '&' and ';' included. An '&' with
      no ';' after it ends the scan and the rest is copied as it is. */
  function Unquoted(s: string): (u: string)
    decreases |s|
  {
    if s == [] then []
    else if s[0] != '&' then [s[0]] + Unquoted(s[1..])
    else
      var j := SemiIdx(s);
      if j == |s| then s
      else
        (match EntityChar(s[1..j])
         case Some(c) => [c]
         case None => s[..j + 1])
        + Unquoted(s[j + 1..])
  }

  lemma QuotedStep(s: string, i: nat)
    requires i < |s|
    ensures Quoted(s[i..]) == Escape(s[i]) + Quoted(s[i + 1..])
  {
    assert s[i..][1..] == s[i + 1..];
  }

  lemma UnquotedStepPlain(s: string, i: nat)
    requires i < |s| && s[i] != '&'
    ensures Unquoted(s[i..]) == [s[i]] + Unquoted(s[i + 1..])
  {
    assert s[i..][1..] == s[i + 1..];
  }

  /** The first ';' at or after index i of `s` is at j exactly when the
      scan from i finds it there. */
  lemma {:induction false} SemiIdxFrom(s: string, i: nat, j: nat)
    requires i <= j <= |s|
    requires forall k :: i <= k < j ==> s[k] != ';'
    requires j < |s| ==> s[j] == ';'
    ensures SemiIdx(s[i..]) == j - i
    decreases j - i
  {
    if i < j {
      assert s[i..][0] == s[i] && s[i..][1..] == s[i + 1..];
      SemiIdxFrom(s, i + 1, j);
    }
  }

  lemma UnquotedStepEntity(s: string, i: nat, j: nat)
    requires i <= j <= |s| && i < |s| && s[i] == '&'
    requires forall k :: i <= k < j ==> s[k] != ';'
    requires j < |s| ==> s[j] == ';'
    ensures j == |s| ==> Unquoted(s[i..]) == s[i..]
    ensures j < |s| ==> i < j && Unquoted(s[i..]) == EntityText(s, i, j) + Unquoted(s[j + 1..])
  {
    SemiIdxFrom(s, i, j);
    var t := s[i..];
    assert t[0] == '&';
    if j < |s| {
      assert t[1..j - i] == s[i + 1..j];
      assert t[..j - i + 1] == s[i..j + 1];
      assert t[j - i + 1..] == s[j + 1..];
    }
  }

  /** The switch of xmlQuote on one input character. */
  method EscapeChar(c: char) returns (e: string)
    ensures e == Escape(c)
  {
    if c == '"' {
      e := "&quot;";
    } else if c == '&' {
      e := "&amp;";
    } else if c == '<' {
      e := "&lt;";
    } else if c == '>' {
      e := "&gt;";
    } else if c == '\'' {
      e := "&apos;";
    } else {
      e := [c];
    }
  }

  /** SoapHelp::xmlQuote. */
  method XmlQuote(s: string) returns (out: string)
    ensures out == Quoted(s)
  {
    out := "";
    var i := 0;
    while i < |s|
      invariant 0 <= i <= |s|
      invariant out + Quoted(s[i..]) == Quoted(s)
    {
      var e := EscapeChar(s[i]);
      QuotedStep(s, i);
      ShiftPrefix(out, e, Quoted(s[i..]), Quoted(s[i + 1..]), Quoted(s));
      out := out + e;
      i := i + 1;
    }
  }

  /** The comparisons xmlUnquote makes between the name inside a reference
      and the five entity names. */
  method ReplaceEntity(s: string, i: nat, j: nat) returns (e: string)
    requires i < j < |s|
    ensures e == EntityText(s, i, j)
  {
    var name := s[i + 1..j];
    if name == "quot" {
      e := "\"";
    } else if name == "amp" {
      e := "&";
    } else if name == "lt" {
      e := "<";
    } else if name == "gt" {
      e := ">";
    } else if name == "apos" {
      e := "'";
    } else {
      e := s[i..j + 1];
    }
  }

  /** The scan of xmlUnquote for the ';' that ends a reference: the first
      ';' at or after `i`, or |s| when there is none. */
  method FindSemi(s: string, i: nat) returns (j: nat)
    requires i <= |s|
    ensures i <= j <= |s|
    ensures forall k :: i <= k < j ==> s[k] != ';'
    ensures j < |s| ==> s[j] == ';'
  {
    j := i;
    while j < |s| && s[j] != ';'
      invariant i <= j <= |s|
      invariant forall k :: i <= k < j ==> s[k] != ';'
    {
      j := j + 1;
    }
  }

  /** The branch of xmlUnquote for an '&' at index i: `j` is where the scan
      for ';' stopped. Without a ';' (j == |s|, where the source reads the
      string's terminating NUL) the rest of the input is what is written;
      otherwise the reference up to s[j] is replaced. */
  method UnquoteReference(s: string, i: nat) returns (e: string, j: nat)
    requires i < |s| && s[i] == '&'
    ensures i < j <= |s|
    ensures j == |s| ==> e == s[i..] && Unquoted(s[i..]) == e
    ensures j < |s| ==> Unquoted(s[i..]) == e + Unquoted(s[j + 1..])
  {
    j := FindSemi(s, i);
    UnquotedStepEntity(s, i, j);
    if j == |s| {
      e := s[i..];
      return;
    }
    // The chain of comparisons against the five entity names.
    e := ReplaceEntity(s, i, j);
  }

  /** One turn of xmlUnquote's loop at index i: what it writes, and where
      the scan goes on; `stop` when an '&' has no ';' after it, in which case
      the rest of the input has been written and the function returns. */
  method UnquoteStep(s: string, i: nat) returns (e: string, next: nat, stop: bool)
    requires i < |s|
    ensures i < next <= |s|
    ensures stop ==> Unquoted(s[i..]) == e
    ensures !stop ==> Unquoted(s[i..]) == e + Unquoted(s[next..])
  {
    if s[i] == '&' {
      var j;
      e, j := UnquoteReference(s, i);
      if j == |s| {
        return e, |s|, true;
      }
      next, stop := j + 1, false;
    } else {
      UnquotedStepPlain(s, i);
      e, next, stop := [s[i]], i + 1, false;
    }
  }

  /** SoapHelp::xmlUnquote. */
  method XmlUnquote(s: string) returns (out: string)
    ensures out == Unquoted(s)
  {
    out := "";
    var i := 0;
    while i < |s|
      invariant 0 <= i <= |s|
      invariant out + Unquoted(s[i..]) == Unquoted(s)
    {
      var e, next, stop := UnquoteStep(s, i);
      if stop {
        out := out + e;
        return;
      }
      ShiftPrefix(out, e, Unquoted(s[i..]), Unquoted(s[next..]), Unquoted(s));
      out := out + e;
      i := next;
    }
  }

  /** Quoting works character by character, in order. */
  lemma {:induction false} QuotedConcat(a: string, b: string)
    ensures Quoted(a + b) == Quoted(a) + Quoted(b)
    decreases |a|
  {
    if a == [] {
      assert a + b == b;
    } else {
      assert (a + b)[1..] == a[1..] + b;
      QuotedConcat(a[1..], b);
      assert (a + b)[0] == a[0];
    }
  }

  /** Quoting never shortens its input. */
  lemma {:induction false} QuotedLength(s: string)
    ensures |Quoted(s)| >= |s|
    decreases |s|
  {
    if s != [] {
      QuotedLength(s[1..]);
    }
  }

  /** xmlQuote leaves a string alone exactly when it holds none of the five
      markup characters. */
  lemma {:induction false} QuotedIdentity(s: string)
    ensures Quoted(s) == s <==> forall k :: 0 <= k < |s| ==> !IsMarkup(s[k])
    decreases |s|
  {
    if s != [] {
      QuotedIdentity(s[1..]);
      QuotedLength(s[1..]);
      assert s == [s[0]] + s[1..];
      if !IsMarkup(s[0]) {
        assert forall k :: 1 <= k < |s| ==> s[k] == s[1..][k - 1];
      } else {
        assert |Quoted(s)| > |s|;
      }
    }
  }

  /** The output of xmlQuote contains none of '"', '<', '>', '\''. */
  lemma {:induction false} QuotedHasNoBareMarkup(s: string)
    ensures forall k :: 0 <= k < |Quoted(s)| ==> !IsMarkup(Quoted(s)[k]) || Quoted(s)[k] == '&'
    decreases |s|
  {
    if s != [] {
      QuotedHasNoBareMarkup(s[1..]);
      var e := Escape(s[0]);
      forall k | 0 <= k < |Quoted(s)|
        ensures !IsMarkup(Quoted(s)[k]) || Quoted(s)[k] == '&'
      {
        if k >= |e| {
          assert Quoted(s)[k] == Quoted(s[1..])[k - |e|];
        }
      }
    }
  }

  /** Input without '&' comes out of xmlUnquote unchanged. */
  lemma {:induction false} UnquotedNoAmp(s: string)
    requires forall k :: 0 <= k < |s| ==> s[k] != '&'
    ensures Unquoted(s) == s
    decreases |s|
  {
    if s != [] {
      UnquotedNoAmp(s[1..]);
    }
  }

  /** Input without ';' comes out of xmlUnquote unchanged: no entity is
      complete without its ';'. */
  lemma {:induction false} UnquotedNoSemi(s: string)
    requires forall k :: 0 <= k < |s| ==> s[k] != ';'
    ensures Unquoted(s) == s
    decreases |s|
  {
    if s != [] && s[0] != '&' {
      UnquotedNoSemi(s[1..]);
    }
  }

  /** A complete entity reference `&name;`: one of the five names gives its
      character, any other name is kept as written. */
  lemma UnquotedEntity(name: string, rest: string)
    requires forall k :: 0 <= k < |name| ==> name[k] != ';'
    ensures EntityChar(name).Some? ==>
      Unquoted("&" + name + ";" + rest) == [EntityChar(name).value] + Unquoted(rest)
    ensures EntityChar(name).None? ==>
      Unquoted("&" + name + ";" + rest) == "&" + name + ";" + Unquoted(rest)
  {
    var s := "&" + name + ";" + rest;
    var j := |name| + 1;
    assert forall k :: 0 <= k < j ==> s[k] != ';' by {
      forall k | 0 <= k < j ensures s[k] != ';' {
        if k > 0 { assert s[k] == name[k - 1]; }
      }
    }
    SemiIdxFrom(s, 0, j);
    assert s[0..] == s;
    assert s[1..j] == name && s[..j + 1] == "&" + name + ";" && s[j + 1..] == rest;
  }

  /** Each markup character's escape is a well-formed reference to the entity
      that decodes back to it. */
  function EntityName(c: char): (t: string) {
    match c
    case '"' => "quot"
    case '&' => "amp"
    case '<' => "lt"
    case '>' => "gt"
    case _ => "apos"
  }

  lemma EscapeIsEntity(c: char)
    requires IsMarkup(c)
    ensures Escape(c) == "&" + EntityName(c) + ";"
    ensures EntityChar(EntityName(c)) == Some(c)
    ensures forall k :: 0 <= k < |EntityName(c)| ==> EntityName(c)[k] != ';'
  {
  }

  /** Round trip: xmlUnquote(xmlQuote(s)) == s for every string. */
  lemma {:induction false} QuoteRoundTrip(s: string)
    ensures Unquoted(Quoted(s)) == s
    decreases |s|
  {
    if s != [] {
      var q := Quoted(s[1..]);
      QuoteRoundTrip(s[1..]);
      if IsMarkup(s[0]) {
        EscapeIsEntity(s[0]);
        UnquotedEntity(EntityName(s[0]), q);
      } else {
        assert Escape(s[0]) == [s[0]];
        assert ([s[0]] + q)[1..] == q;
      }
      assert s == [s[0]] + s[1..];
    }
  }

  // ---------------------------------------------------------------------
  // Integers as text

  predicate IsDigit(c: char) {
    '0' <= c <= '9'
  }

  /** The decimal digits of a natural number, most significant first. */
  function Digits(n: nat): (r: string)
    ensures |r| > 0
    ensures forall k :: 0 <= k < |r| ==> IsDigit(r[k])
    decreases n
  {
    if n < 10 then [('0' as int + n) as char]
    else Digits(n / 10) + [('0' as int + n % 10) as char]
  }

  /** SoapHelp::i2s: `sprintf("%d")`. */
  function I2s(v: int): (t: string) {
    if v < 0 then "-" + Digits(-v) else Digits(v)
  }

  function DigitValue(c: char): (d: nat)
    requires IsDigit(c)
  {
    c as int - '0' as int
  }

  /** The value of a run of decimal digits. */
  function DigitsValue(ds: string): (v: nat)
    requires forall k :: 0 <= k < |ds| ==> IsDigit(ds[k])
    decreases |ds|
  {
    if ds == [] then 0
    else DigitsValue(ds[..|ds| - 1]) * 10 + DigitValue(ds[|ds| - 1])
  }

  /** The longest prefix of `s` made of decimal digits. */
  function LeadingDigits(s: string): (r: string)
    ensures forall k :: 0 <= k < |r| ==> IsDigit(r[k])
    decreases |s|
  {
    if s != [] && IsDigit(s[0]) then [s[0]] + LeadingDigits(s[1..]) else []
  }

  predicate IsSpace(c: char) {
    c == ' ' || 9 <= c as int <= 13
  }

  function SkipSpaces(s: string): (t: string)
    decreases |s|
  {
    if s != [] && IsSpace(s[0]) then SkipSpaces(s[1..]) else s
  }

  /** A leading-digits model of C's atoi: blanks, an optional sign, then the
      decimal digits that follow; 0 when there are none. */
  function Atoi(s: string): (v: int) {
    var t := SkipSpaces(s);
    if t != [] && t[0] == '-' then -(DigitsValue(LeadingDigits(t[1..])) as int)
    else if t != [] && t[0] == '+' then DigitsValue(LeadingDigits(t[1..]))
    else DigitsValue(LeadingDigits(t))
  }

  lemma {:induction false} LeadingDigitsAll(s: string)
    requires forall k :: 0 <= k < |s| ==> IsDigit(s[k])
    ensures LeadingDigits(s) == s
    decreases |s|
  {
    if s != [] {
      LeadingDigitsAll(s[1..]);
    }
  }

  lemma {:induction false} DigitsValueOfDigits(n: nat)
    ensures DigitsValue(Digits(n)) == n
    decreases n
  {
    if n >= 10 {
      DigitsValueOfDigits(n / 10);
      var ds := Digits(n);
      assert ds[..|ds| - 1] == Digits(n / 10);
    }
  }

  /** atoi of a run of digits, with or without a leading minus sign. */
  lemma AtoiOfDigits(ds: string)
    requires |ds| > 0 && forall k :: 0 <= k < |ds| ==> IsDigit(ds[k])
    ensures Atoi(ds) == DigitsValue(ds)
    ensures Atoi("-" + ds) == -(DigitsValue(ds) as int)
  {
    LeadingDigitsAll(ds);
    assert !IsSpace(ds[0]) && SkipSpaces(ds) == ds;
    var m := "-" + ds;
    assert !IsSpace(m[0]) && SkipSpaces(m) == m;
    assert m[1..] == ds;
  }

  /** Formatting then parsing gives the integer back: atoi(i2s(v)) == v. */
  lemma I2sRoundTrip(v: int)
    ensures I2s(v) != []
    ensures Atoi(I2s(v)) == v
  {
    var n: nat := if v < 0 then -v else v;
    AtoiOfDigits(Digits(n));
    DigitsValueOfDigits(n);
  }

  // ---------------------------------------------------------------------
  // Decoding argument lists and property sets

  /** The value an element carries: the value of its first child, or "" when
      it has no child or the child has no value. */
  function TextOf(n: Node): (t: string) {
    match FirstChild(n)
    case None => ""
    case Some(t) => t.value.GetOr("")
  }

  /** What one child of an action element contributes: its own name and its
      text; a child without a name is malformed. */
  function ArgEntry(cld: Node): (e: Option<(string, string)>) {
    match cld.name
    case None => None
    case Some(nm) => Some((nm, TextOf(cld)))
  }

  /** What one property wrapper contributes: the name of its first child and
      that child's text. A wrapper without a named first child is malformed
      (see PropertyEntryAsWritten for what the source does instead). */
  function PropertyEntry(cld: Node): (e: Option<(string, string)>) {
    match FirstChild(cld)
    case None => None
    case Some(sub) =>
      match sub.name
      case None => None
      case Some(nm) => Some((nm, TextOf(sub)))
  }

  datatype Decoded = Decoded(ok: bool, args: map<string, string>)

  /** The loop shared by both decoders, from index i of the child list on:
      a NULL entry stops it (successfully only at index 0), a malformed entry
      stops it with failure, every other entry is stored into the map. */
  function CollectFrom(nl: seq<Option<Node>>, i: nat, acc: map<string, string>,
                       entry: Node -> Option<(string, string)>): (d: Decoded)
    requires i <= |nl|
    decreases |nl| - i
  {
    if i == |nl| then Decoded(true, acc)
    else match nl[i]
      case None => Decoded(i == 0, acc)
      case Some(cld) =>
        match entry(cld)
        case None => Decoded(false, acc)
        case Some(kv) => CollectFrom(nl, i + 1, acc[kv.0 := kv.1], entry)
  }

  /** Decoding of a whole document: the top element is the document's first
      child, its child list holds the entries; no top element is a failure,
      no child list means nothing to decode. Entries are added to `acc`. */
  function DecodeDoc(doc: Node, acc: map<string, string>,
                     entry: Node -> Option<(string, string)>): (d: Decoded)
  {
    match FirstChild(doc)
    case None => Decoded(false, acc)
    case Some(top) =>
      match top.kids
      case None => Decoded(true, acc)
      case Some(nl) => CollectFrom(nl, 0, acc, entry)
  }

  /** Every entry of the list is present and well formed. */
  predicate AllEntries(nl: seq<Option<Node>>, entry: Node -> Option<(string, string)>) {
    forall k :: 0 <= k < |nl| ==> nl[k].Some? && entry(nl[k].value).Some?
  }

  /** The name/value pairs of a list whose entries are all well formed. */
  function Entries(nl: seq<Option<Node>>, entry: Node -> Option<(string, string)>): (ps: seq<(string, string)>)
    requires AllEntries(nl, entry)
    ensures |ps| == |nl|
  {
    seq(|nl|, k requires 0 <= k < |nl| => entry(nl[k].value).value)
  }

  lemma {:induction false} CollectFromOk(nl: seq<Option<Node>>, i: nat, acc: map<string, string>,
                                         entry: Node -> Option<(string, string)>)
    requires i <= |nl|
    ensures CollectFrom(nl, i, acc, entry).ok <==>
      (i == 0 && i < |nl| && nl[i].None?) ||
      (forall k :: i <= k < |nl| ==> nl[k].Some? && entry(nl[k].value).Some?)
    decreases |nl| - i
  {
    if i < |nl| && nl[i].Some? && entry(nl[i].value).Some? {
      var kv := entry(nl[i].value).value;
      CollectFromOk(nl, i + 1, acc[kv.0 := kv.1], entry);
    }
  }

  lemma {:induction false} CollectFromArgs(nl: seq<Option<Node>>, i: nat, acc: map<string, string>,
                                           entry: Node -> Option<(string, string)>)
    requires i <= |nl| && AllEntries(nl, entry)
    ensures CollectFrom(nl, i, acc, entry).args == Insert(acc, Entries(nl, entry)[i..])
    decreases |nl| - i
  {
    if i < |nl| {
      var kv := entry(nl[i].value).value;
      CollectFromArgs(nl, i + 1, acc[kv.0 := kv.1], entry);
      assert Entries(nl, entry)[i..][1..] == Entries(nl, entry)[i + 1..];
    }
  }

  /** The decoding rules shared by action arguments and property sets:
      no top element fails; no child list, or a NULL first entry, succeeds
      with nothing added; otherwise decoding succeeds exactly when every entry
      is present and well formed, and then stores the entries' pairs in list
      order, so that a later duplicate name overwrites an earlier one. */
  lemma DecodeRules(doc: Node, acc: map<string, string>, entry: Node -> Option<(string, string)>)
    ensures FirstChild(doc).None? ==> !DecodeDoc(doc, acc, entry).ok
    ensures FirstChild(doc).Some? && FirstChild(doc).value.kids.None? ==>
      DecodeDoc(doc, acc, entry) == Decoded(true, acc)
    ensures FirstChild(doc).Some? && FirstChild(doc).value.kids.Some? ==>
      var nl := FirstChild(doc).value.kids.value;
      && (|nl| > 0 && nl[0].None? ==> DecodeDoc(doc, acc, entry) == Decoded(true, acc))
      && (!(|nl| > 0 && nl[0].None?) ==>
           (DecodeDoc(doc, acc, entry).ok <==> AllEntries(nl, entry)))
      && (AllEntries(nl, entry) ==>
           DecodeDoc(doc, acc, entry) == Decoded(true, Insert(acc, Entries(nl, entry))))
  {
    if FirstChild(doc).Some? && FirstChild(doc).value.kids.Some? {
      var nl := FirstChild(doc).value.kids.value;
      CollectFromOk(nl, 0, acc, entry);
      if AllEntries(nl, entry) {
        CollectFromArgs(nl, 0, acc, entry);
        assert Entries(nl, entry)[0..] == Entries(nl, entry);
      }
    }
  }

  /** A NULL entry after a present first one makes decoding fail. */
  lemma NullEntryLaterFails(doc: Node, acc: map<string, string>, entry: Node -> Option<(string, string)>, i: nat)
    requires FirstChild(doc).Some? && FirstChild(doc).value.kids.Some?
    requires 0 < i < |FirstChild(doc).value.kids.value|
    requires FirstChild(doc).value.kids.value[0].Some?
    requires FirstChild(doc).value.kids.value[i].None?
    ensures !DecodeDoc(doc, acc, entry).ok
  {
    var nl := FirstChild(doc).value.kids.value;
    CollectFromOk(nl, 0, acc, entry);
  }

  /** A decoded argument takes the text of the LAST child with its name. */
  lemma DecodedArgValue(doc: Node, acc: map<string, string>, i: nat)
    requires FirstChild(doc).Some? && FirstChild(doc).value.kids.Some?
    requires AllEntries(FirstChild(doc).value.kids.value, ArgEntry)
    requires i < |FirstChild(doc).value.kids.value|
    requires var nl := FirstChild(doc).value.kids.value;
             forall j :: i < j < |nl| ==> nl[j].value.name != nl[i].value.name
    ensures var c := FirstChild(doc).value.kids.value[i].value;
            && DecodeDoc(doc, acc, ArgEntry).ok
            && c.name.value in DecodeDoc(doc, acc, ArgEntry).args
            && DecodeDoc(doc, acc, ArgEntry).args[c.name.value] == TextOf(c)
  {
    var nl := FirstChild(doc).value.kids.value;
    DecodeRules(doc, acc, ArgEntry);
    var ps := Entries(nl, ArgEntry);
    assert forall j :: i < j < |ps| ==> ps[j].0 != ps[i].0 by {
      forall j | i < j < |ps| ensures ps[j].0 != ps[i].0 {
        assert ps[j].0 == nl[j].value.name.value;
      }
    }
    LastValueIsLast(ps, i);
    InsertLookup(acc, ps, ps[i].0);
  }

  /** The SOAP request/response view of an incoming message. */
  class SoapIncoming {
    var name: string
    var args: map<string, string>

    constructor ()
      ensures name == "" && args == map[]
    {
      name := "";
      args := map[];
    }

    /** SoapIncoming::decode: the action name is recorded and the arguments
        are added to `args`, also those read before a failure. */
    method Decode(callnm: string, doc: Node) returns (ok: bool)
      modifies this
      ensures name == callnm
      ensures Decoded(ok, args) == DecodeDoc(doc, old(args), ArgEntry)
    {
      name := callnm;
      var top := FirstChild(doc);
      if top.None? {
        return false;
      }
      var nl := top.value.kids;
      if nl.None? {
        return true;
      }
      var l := nl.value;
      ok := false;
      var i := 0;
      while i < |l|
        invariant 0 <= i <= |l|
        invariant name == callnm
        invariant CollectFrom(l, i, args, ArgEntry) == CollectFrom(l, 0, old(args), ArgEntry)
      {
        if l[i].None? {
          ok := i == 0;
          return;
        }
        var cld := l[i].value;
        if cld.name.None? {
          return;
        }
        var txtnode := FirstChild(cld);
        var value := "";
        if txtnode.Some? && txtnode.value.value.Some? {
          value := txtnode.value.value.value;
        }
        args := args[cld.name.value := value];
        i := i + 1;
      }
      name := callnm;
      ok := true;
    }
  }

  /** SoapIncoming::get for strings: fails only when the name is absent; an
      empty value is a value. */
  function GetString(args: map<string, string>, nm: string): (r: Option<string>)
    ensures r.None? <==> nm !in args
    ensures r.Some? ==> r.value == args[nm]
  {
    if nm in args then Some(args[nm]) else None
  }

  /** SoapIncoming::get for integers: fails when the name is absent or its
      value empty, otherwise yields atoi of the value. */
  function GetInt(args: map<string, string>, nm: string): (r: Option<int>)
    ensures r.None? <==> nm !in args || args[nm] == ""
    ensures r.Some? ==> r.value == Atoi(args[nm])
  {
    if nm !in args || args[nm] == "" then None else Some(Atoi(args[nm]))
  }

  /** SoapIncoming::get for booleans: fails when the name is absent or its
      value empty, otherwise it is whatever the library's string-to-boolean
      conversion (a parameter here) makes of the value. */
  function GetBool(args: map<string, string>, nm: string, stringToBool: string -> Option<bool>): (r: Option<bool>)
    ensures nm !in args || args[nm] == "" ==> r.None?
    ensures nm in args && args[nm] != "" ==> r == stringToBool(args[nm])
  {
    if nm !in args || args[nm] == "" then None else stringToBool(args[nm])
  }

  /** An integer sent with i2s is read back by the integer getter. */
  lemma IntArgRoundTrip(args: map<string, string>, nm: string, v: int)
    ensures GetInt(args[nm := I2s(v)], nm) == Some(v)
  {
    I2sRoundTrip(v);
  }

  /** decodePropertySet: the variables of an event message are added to
      `out0`. Unlike the action decoder it reads the name from the wrapper's
      first child and does not unquote (the XML parser has done it). */
  method DecodePropertySet(doc: Node, out0: map<string, string>) returns (ok: bool, out: map<string, string>)
    ensures Decoded(ok, out) == DecodeDoc(doc, out0, PropertyEntry)
  {
    out := out0;
    var top := FirstChild(doc);
    if top.None? {
      return false, out;
    }
    var nl := top.value.kids;
    if nl.None? {
      return true, out;
    }
    var l := nl.value;
    ok := false;
    var i := 0;
    while i < |l|
      invariant 0 <= i <= |l|
      invariant CollectFrom(l, i, out, PropertyEntry) == CollectFrom(l, 0, out0, PropertyEntry)
    {
      if l[i].None? {
        ok := i == 0;
        return;
      }
      var cld := l[i].value;
      var subnode := FirstChild(cld);
      if subnode.None? || subnode.value.name.None? {
        return;
      }
      var txtnode := FirstChild(subnode.value);
      var value := "";
      if txtnode.Some? && txtnode.value.value.Some? {
        value := txtnode.value.value.value;
      }
      out := out[subnode.value.name.value := value];
      i := i + 1;
    }
    ok := true;
  }

  /** What the source does with one property wrapper as written: its guard
      tests the wrapper pointer a second time instead of a name, so a wrapper
      whose first child is missing or nameless is not rejected and the map is
      indexed with a NULL name. */
  datatype PropertyStep = Store(key: string, value: string) | StoreNullKey(value: string)

  function PropertyEntryAsWritten(cld: Node): (r: PropertyStep)
    ensures PropertyEntry(cld).Some? ==> r == Store(PropertyEntry(cld).value.0, PropertyEntry(cld).value.1)
    ensures PropertyEntry(cld).None? ==> r.StoreNullKey?
  {
    var sub := FirstChild(cld);
    var name := if sub.Some? then sub.value.name else None;
    var value := if sub.Some? then TextOf(sub.value) else "";
    match name
    case Some(nm) => Store(nm, value)
    case None => StoreNullKey(value)
  }

  /** The input that shows it: `<e:property/>`, a wrapper with no variable
      element. As written the NULL name reaches the map; the corrected
      decoder rejects the property set instead. */
  lemma EmptyPropertyWrapper(rest: seq<Node>)
    ensures var w := Node(Some("e:property"), "", None, map[], ChildList([]));
      && PropertyEntryAsWritten(w) == StoreNullKey("")
      && !DecodeDoc(Node(None, "", None, map[], ChildList([Node(Some("e:propertyset"), "", None, map[], ChildList([w] + rest))])),
                    map[], PropertyEntry).ok
  {
    var w := Node(Some("e:property"), "", None, map[], ChildList([]));
    var top := Node(Some("e:propertyset"), "", None, map[], ChildList([w] + rest));
    var doc := Node(None, "", None, map[], ChildList([top]));
    assert FirstChild(doc) == Some(top);
    var nl := top.kids.value;
    assert nl[0] == Some(w);
    DecodeRules(doc, map[], PropertyEntry);
  }

  /** A successfully decoded property set only holds names of variable
      elements, never a NULL name, and each holds the text of its element. */
  lemma PropertySetRules(doc: Node, acc: map<string, string>, i: nat)
    requires FirstChild(doc).Some? && FirstChild(doc).value.kids.Some?
    requires var nl := FirstChild(doc).value.kids.value; i < |nl| && nl[i].Some?
    requires var nl := FirstChild(doc).value.kids.value;
             !(nl[0].None?) && DecodeDoc(doc, acc, PropertyEntry).ok
    ensures var nl := FirstChild(doc).value.kids.value;
            var sub := FirstChild(nl[i].value);
            sub.Some? && sub.value.name.Some? && sub.value.name.value in DecodeDoc(doc, acc, PropertyEntry).args
  {
    var nl := FirstChild(doc).value.kids.value;
    DecodeRules(doc, acc, PropertyEntry);
    var ps := Entries(nl, PropertyEntry);
    assert ps[i].0 == FirstChild(nl[i].value).value.name.value;
    LastValueFound(ps, ps[i].0);
    InsertLookup(acc, ps, ps[i].0);
  }

  // ---------------------------------------------------------------------
  // Building action bodies

  /** The document buildSoapBody produces: a top element `u:<name>`, with
      "Response" appended for a response, in namespace `serviceType` with
      attribute xmlns:u = serviceType, holding one element per pair in order,
      each with the pair's value, as given, as its text. */
  function SoapBody(serviceType: string, name: string, isResponse: bool,
                    data: seq<(string, string)>): (doc: Node)
  {
    var topname := "u:" + name + (if isResponse then "Response" else "");
    var elts := seq(|data|, i requires 0 <= i < |data| => TextElement(data[i].0, data[i].1));
    var top := Node(Some(topname), serviceType, None, map["xmlns:u" := serviceType], ChildList(elts));
    Node(Some("#document"), "", None, map[], ChildList([top]))
  }

  /** The shape of a built body, stated as a reader of the document sees it. */
  lemma SoapBodyShape(serviceType: string, name: string, isResponse: bool,
                      data: seq<(string, string)>, i: nat)
    requires i < |data|
    ensures var top := FirstChild(SoapBody(serviceType, name, isResponse, data));
      && top.Some?
      && (isResponse ==> top.value.name == Some("u:" + name + "Response"))
      && (!isResponse ==> top.value.name == Some("u:" + name))
      && top.value.namespaceUri == serviceType
      && "xmlns:u" in top.value.attributes && top.value.attributes["xmlns:u"] == serviceType
      && top.value.kids.Some? && |top.value.kids.value| == |data|
      && top.value.kids.value[i].Some?
      && top.value.kids.value[i].value.name == Some(data[i].0)
      && TextOf(top.value.kids.value[i].value) == data[i].1
  {
    assert "u:" + name + "" == "u:" + name;
  }

  /** Encoding pairs into a body and decoding that body with the argument
      decoder stores the same pairs, in the same order, into the map. */
  lemma SoapBodyRoundTrip(serviceType: string, name: string, isResponse: bool,
                          data: seq<(string, string)>, acc: map<string, string>)
    ensures DecodeDoc(SoapBody(serviceType, name, isResponse, data), acc, ArgEntry)
            == Decoded(true, Insert(acc, data))
  {
    var doc := SoapBody(serviceType, name, isResponse, data);
    var top := FirstChild(doc).value;
    var nl := top.kids.value;
    DecodeRules(doc, acc, ArgEntry);
    if data != [] {
      assert AllEntries(nl, ArgEntry);
      assert Entries(nl, ArgEntry) == data;
    }
  }

  /** SoapOutgoing: the arguments of an outgoing action or response. */
  class SoapOutgoing {
    var serviceType: string
    var name: string
    var data: seq<(string, string)>

    constructor (st: string, nm: string)
      ensures serviceType == st && name == nm && data == []
    {
      serviceType := st;
      name := nm;
      data := [];
    }

    constructor Empty()
      ensures serviceType == "" && name == "" && data == []
    {
      serviceType := "";
      name := "";
      data := [];
    }

    /** addarg and operator(): the pair goes at the end, earlier pairs stay. */
    method AddArg(k: string, v: string)
      modifies this`data
      ensures data == old(data) + [(k, v)]
    {
      data := data + [(k, v)];
    }

    /** buildSoapBody. */
    method BuildSoapBody(isResponse: bool) returns (doc: Node)
      ensures doc == SoapBody(serviceType, name, isResponse, data)
    {
      var topname := "u:" + name;
      if isResponse {
        topname := topname + "Response";
      }
      var d := data;
      var elts: seq<Node> := [];
      for i := 0 to |d|
        invariant elts == seq(i, k requires 0 <= k < i => TextElement(d[k].0, d[k].1))
      {
        elts := elts + [TextElement(d[i].0, d[i].1)];
      }
      assert topname == "u:" + name + (if isResponse then "Response" else "");
      var top := Node(Some(topname), serviceType, None, map["xmlns:u" := serviceType], ChildList(elts));
      doc := Node(Some("#document"), "", None, map[], ChildList([top]));
    }
  }
}
