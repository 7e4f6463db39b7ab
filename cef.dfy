/**
 * parser/cef.go: NSG flow tuples as ArcSight Common Event Format events,
 * the CEF line of an event and the syslog formatter that reads a time
 * prefix back off such a line.
 */
module Cef {
  import opened Base
  import opened Text
  import opened Calendar
  import opened MacAddress
  import opened Sorting
  import opened NsgTypes
  import Patterns

  // ------------------------------------------------------------ events

  /**
   * CefEvent. The four *int / *string header fields point at package
   * variables that are never reassigned, so they are plain values here.
   * time is None for the zero time.Time{}; a time made by time.Unix carries
   * the local location and so never equals time.Time{}, whatever its instant.
   */
  datatype CefEvent = CefEvent(
    cefVersion: int,
    deviceVendor: string,
    deviceProduct: string,
    deviceVersion: string,
    deviceEventClassId: string,
    time: Option<Instant>,
    name: string,
    severity: int,
    extension: map<string, string>)

  const CefVersion: int := 0
  const NsgDeviceVendor: string := "Microsoft"
  const NsgDeviceProduct: string := "Azure NSG"
  const NsgDeviceVersion: string := "1"
  const EventClassIdFlow: string := "nsg-flow"

  /** NewNsgCefEvent: the NSG header, an empty extension, the zero time. */
  function NewNsgCefEvent(): CefEvent
  {
    CefEvent(CefVersion, NsgDeviceVendor, NsgDeviceProduct, NsgDeviceVersion, "", None, "", 0, map[])
  }

  /** protocolMap, directionMap and outcomeMap. */
  const ProtocolMap: map<string, string> := map["T" := "TCP", "U" := "UDP"]
  const DirectionMap: map<string, int> := map["I" := 0, "O" := 1]
  const OutcomeMap: map<string, string> := map["A" := "Allow", "D" := "Deny"]

  // ------------------------------------------------------------ extension values

  /** The escaped form of one character of an extension value. */
  function EscapeChar(c: char): string
  {
    if c == '=' then "\\=" else [c]
  }

  /** formatValue: every '=' becomes "\=", every other character stays. */
  function FormatValue(value: string): (r: string)
    ensures |r| > 0 ==> r[0] != '='
    decreases |value|
  {
    if |value| == 0 then "" else EscapeChar(value[0]) + FormatValue(value[1..])
  }

  /** Reading an escaped value: "\=" stands for '='; everything else for itself. */
  function UnescapeValue(s: string): string
    decreases |s|
  {
    if |s| == 0 then ""
    else if |s| >= 2 && s[0] == '\\' && s[1] == '=' then "=" + UnescapeValue(s[2..])
    else [s[0]] + UnescapeValue(s[1..])
  }

  /** formatValue loses nothing: the value reads back from its escaped form. */
  lemma {:induction false} UnescapeFormatValue(value: string)
    ensures UnescapeValue(FormatValue(value)) == value
    decreases |value|
  {
    if |value| > 0 {
      UnescapeFormatValue(value[1..]);
      var rest := FormatValue(value[1..]);
      if value[0] == '=' {
        assert FormatValue(value) == "\\=" + rest;
        assert ("\\=" + rest)[2..] == rest;
      } else {
        assert FormatValue(value) == [value[0]] + rest;
        assert ([value[0]] + rest)[1..] == rest;
        assert value[0] == '\\' ==> |rest| == 0 || rest[0] != '=';
      }
      assert value == [value[0]] + value[1..];
    }
  }

  /** A value without '=' is written as it is, backslashes and line breaks included. */
  lemma {:induction false} FormatValuePlain(value: string)
    requires '=' !in value
    ensures FormatValue(value) == value
    decreases |value|
  {
    if |value| > 0 {
      assert '=' !in value[1..];
      FormatValuePlain(value[1..]);
      assert value == [value[0]] + value[1..];
    }
  }

  /** One character more per '='. */
  lemma {:induction false} FormatValueLength(value: string)
    ensures |FormatValue(value)| == |value| + Count(value, '=')
    decreases |value|
  {
    if |value| > 0 {
      FormatValueLength(value[1..]);
    }
  }

  /** The last character of an escaped non-empty value is that of the value ('=' stays last). */
  lemma {:induction false} FormatValueLast(value: string)
    requires |value| > 0
    ensures var r := FormatValue(value); |r| > 0 && r[|r| - 1] == value[|value| - 1]
    decreases |value|
  {
    if |value| > 1 {
      FormatValueLast(value[1..]);
      var rest := FormatValue(value[1..]);
      assert FormatValue(value) == EscapeChar(value[0]) + rest;
    }
  }

  // ------------------------------------------------------------ extension text

  /** "key=value " for one pair, as the loop appends it. */
  function PairText(key: string, value: string): string
  {
    key + "=" + FormatValue(value) + " "
  }

  /** The bytes the loop over sorted keys appends: one PairText per key with a non-empty value. */
  function PairsText(keys: seq<string>, ext: map<string, string>): string
    decreases |keys|
  {
    if |keys| == 0 then ""
    else
      var key := keys[|keys| - 1];
      var value := Get(ext, key, "");
      PairsText(keys[..|keys| - 1], ext) + (if value != "" then PairText(key, value) else "")
  }

  /**
   * ExtensionText's value: the pairs in ascending key order, empty values
   * dropped, trimmed and prefixed with '|'; "" when no pair survives.
   */
  ghost function RenderExtension(ext: map<string, string>): string
  {
    var text := PairsText(SortedKeys(ext.Keys), ext);
    if |text| != 0 then "|" + TrimSpace(text) else ""
  }

  /** The first loop of CefEvent.ExtensionText: every key of the map, each once, in iteration order. */
  method ListKeys(ext: map<string, string>) returns (extensionKeys: seq<string>)
    ensures multiset(extensionKeys) == multiset(ext.Keys)
  {
    extensionKeys := [];
    var rest := ext.Keys;
    while rest != {}
      invariant multiset(extensionKeys) + multiset(rest) == multiset(ext.Keys)
      decreases |rest|
    {
      var k :| k in rest;
      assert rest == (rest - {k}) + {k};
      extensionKeys := extensionKeys + [k];
      rest := rest - {k};
    }
  }

  /** The second loop of CefEvent.ExtensionText: "key=value " for each key whose value is not empty. */
  method AppendPairs(extensionKeys: seq<string>, ext: map<string, string>) returns (extensionText: string)
    ensures extensionText == PairsText(extensionKeys, ext)
  {
    extensionText := "";
    for i := 0 to |extensionKeys|
      invariant extensionText == PairsText(extensionKeys[..i], ext)
    {
      var key := extensionKeys[i];
      var value := Get(ext, key, "");
      assert extensionKeys[..i + 1][..i] == extensionKeys[..i];
      if value != "" {
        extensionText := extensionText + PairText(key, value);
      }
    }
    assert extensionKeys[..|extensionKeys|] == extensionKeys;
  }

  /**
   * CefEvent.ExtensionText. The keys are gathered in the map's (arbitrary)
   * iteration order and sorted; the result depends on the map alone.
   */
  method ExtensionText(ext: map<string, string>) returns (text: string)
    ensures text == RenderExtension(ext)
  {
    var extensionKeys := ListKeys(ext);
    SortListing(extensionKeys, ext.Keys);
    extensionKeys := SortStrings(extensionKeys);
    var extensionText := AppendPairs(extensionKeys, ext);
    if |extensionText| != 0 {
      text := "|" + TrimSpace(extensionText);
    } else {
      text := "";
    }
  }

  lemma {:induction false} PairsTextEmpty(keys: seq<string>, ext: map<string, string>)
    ensures PairsText(keys, ext) == "" <==> forall i :: 0 <= i < |keys| ==> Get(ext, keys[i], "") == ""
    decreases |keys|
  {
    if |keys| > 0 {
      var pre := keys[..|keys| - 1];
      PairsTextEmpty(pre, ext);
      assert forall i :: 0 <= i < |pre| ==> pre[i] == keys[i];
    }
  }

  /** The extension text is empty exactly when every value is empty; otherwise it starts with '|'. */
  lemma ExtensionEmpty(ext: map<string, string>)
    ensures RenderExtension(ext) == "" <==> forall k :: k in ext ==> ext[k] == ""
    ensures RenderExtension(ext) != "" ==> RenderExtension(ext)[0] == '|'
  {
    SortedKeysMembers(ext.Keys);
    var keys := SortedKeys(ext.Keys);
    PairsTextEmpty(keys, ext);
    if forall k :: k in ext ==> ext[k] == "" {
      assert forall i :: 0 <= i < |keys| ==> Get(ext, keys[i], "") == "" by {
        forall i | 0 <= i < |keys| ensures Get(ext, keys[i], "") == "" {
          assert keys[i] in keys;
        }
      }
    } else {
      var k :| k in ext && ext[k] != "";
      assert k in keys;
      var i :| 0 <= i < |keys| && keys[i] == k;
    }
  }

  /** The non-empty pairs "key=value" in key order, as a list. */
  function PairList(keys: seq<string>, ext: map<string, string>): seq<string>
    decreases |keys|
  {
    if |keys| == 0 then []
    else
      var key := keys[|keys| - 1];
      var value := Get(ext, key, "");
      PairList(keys[..|keys| - 1], ext) + (if value != "" then [key + "=" + FormatValue(value)] else [])
  }

  lemma {:induction false} JoinSnoc(xs: seq<string>, y: string, sep: char)
    requires |xs| > 0
    ensures Join(xs + [y], sep) == Join(xs, sep) + [sep] + y
    decreases |xs|
  {
    if |xs| > 1 {
      JoinSnoc(xs[1..], y, sep);
      assert (xs + [y])[1..] == xs[1..] + [y];
    } else {
      assert (xs + [y])[1..] == [y];
    }
  }

  /** The appended text is the space-joined pair list followed by one trailing space. */
  lemma {:induction false} PairsTextJoined(keys: seq<string>, ext: map<string, string>)
    ensures var l := PairList(keys, ext);
      (|l| == 0 ==> PairsText(keys, ext) == "") && (|l| > 0 ==> PairsText(keys, ext) == Join(l, ' ') + " ")
    decreases |keys|
  {
    if |keys| > 0 {
      var pre := keys[..|keys| - 1];
      PairsTextJoined(pre, ext);
      var key := keys[|keys| - 1];
      var l := PairList(pre, ext);
      var value := Get(ext, key, "");
      if value != "" {
        var p := key + "=" + FormatValue(value);
        assert PairList(keys, ext) == l + [p];
        assert PairsText(keys, ext) == PairsText(pre, ext) + p + " ";
        if |l| > 0 {
          JoinSnoc(l, p, ' ');
        } else {
          assert l + [p] == [p];
        }
      } else {
        assert PairList(keys, ext) == l + [] == l;
      }
    }
  }

  /** The first and the last character of Join(xs, sep), when no piece is empty. */
  lemma {:induction false} JoinEnds(xs: seq<string>, sep: char)
    requires |xs| > 0 && forall i :: 0 <= i < |xs| ==> |xs[i]| > 0
    ensures var j := Join(xs, sep); |j| > 0 && j[0] == xs[0][0] && j[|j| - 1] == xs[|xs| - 1][|xs[|xs| - 1]| - 1]
    decreases |xs|
  {
    if |xs| > 1 {
      JoinEnds(xs[1..], sep);
    }
  }

  /** TrimSpace of a text that neither starts nor ends with white space, followed by white space. */
  lemma TrimTrailing(t: string, w: string)
    requires |t| > 0 && !IsSpace(t[0]) && !IsSpace(t[|t| - 1])
    requires forall k :: 0 <= k < |w| ==> IsSpace(w[k])
    ensures TrimSpace(t + w) == t
  {
    var s := t + w;
    var r := TrimSpace(s);
    var i, j :| 0 <= i <= j <= |s| && r == s[i..j]
      && (forall k :: 0 <= k < i ==> IsSpace(s[k])) && (forall k :: j <= k < |s| ==> IsSpace(s[k]));
    assert s[0] == t[0];
    assert i == 0;
    assert s[|t| - 1] == t[|t| - 1];
    assert j >= |t|;
    assert forall k :: |t| <= k < |s| ==> s[k] == w[k - |t|];
    assert s[..|t|] == t;
  }

  /** A key the extension can start a pair with: not empty, no leading white space. */
  predicate PlainKey(k: string)
  {
    |k| > 0 && !IsSpace(k[0])
  }

  /** A value the extension can end a pair with: empty (dropped) or without trailing white space. */
  predicate PlainValue(v: string)
  {
    v == "" || !IsSpace(v[|v| - 1])
  }

  /** Not empty, and white space at neither end. */
  predicate Unpadded(p: string)
  {
    |p| > 0 && !IsSpace(p[0]) && !IsSpace(p[|p| - 1])
  }

  /** Every entry of the pair list starts like its key and ends like its value. */
  lemma {:induction false} PairListShape(keys: seq<string>, ext: map<string, string>)
    requires forall i :: 0 <= i < |keys| ==> PlainKey(keys[i]) && PlainValue(Get(ext, keys[i], ""))
    ensures forall i :: 0 <= i < |PairList(keys, ext)| ==> Unpadded(PairList(keys, ext)[i])
    decreases |keys|
  {
    if |keys| > 0 {
      var pre := keys[..|keys| - 1];
      assert forall i :: 0 <= i < |pre| ==> pre[i] == keys[i];
      PairListShape(pre, ext);
      var key := keys[|keys| - 1];
      var value := Get(ext, key, "");
      if value != "" {
        var p := key + "=" + FormatValue(value);
        FormatValueLast(value);
        assert p[0] == key[0];
        assert p[|p| - 1] == value[|value| - 1];
        assert Unpadded(p);
      }
    }
  }

  /** The keys and values of a map carry over to its sorted key listing. */
  lemma SortedKeysPlain(ext: map<string, string>)
    requires forall k :: k in ext ==> PlainKey(k) && PlainValue(ext[k])
    ensures forall i :: 0 <= i < |SortedKeys(ext.Keys)| ==>
      PlainKey(SortedKeys(ext.Keys)[i]) && PlainValue(Get(ext, SortedKeys(ext.Keys)[i], ""))
  {
    SortedKeysMembers(ext.Keys);
    var keys := SortedKeys(ext.Keys);
    forall i | 0 <= i < |keys| ensures PlainKey(keys[i]) && PlainValue(Get(ext, keys[i], "")) {
      assert keys[i] in keys;
    }
  }

  /** With a value that is not empty the pair list is not empty, and the appended text is its join and one space. */
  lemma SomePair(ext: map<string, string>)
    requires exists k :: k in ext && ext[k] != ""
    ensures var l := PairList(SortedKeys(ext.Keys), ext);
      |l| > 0 && PairsText(SortedKeys(ext.Keys), ext) == Join(l, ' ') + " "
  {
    ExtensionEmpty(ext);
    PairsTextJoined(SortedKeys(ext.Keys), ext);
  }

  /** Trimming an appended text that is an unpadded join and one space leaves the join. */
  lemma RenderTrimmed(ext: map<string, string>, joined: string)
    requires PairsText(SortedKeys(ext.Keys), ext) == joined + " "
    requires Unpadded(joined)
    ensures RenderExtension(ext) == "|" + joined
  {
    TrimTrailing(joined, " ");
  }

  /**
   * When no key begins and no value ends with white space, only the last
   * separator is trimmed: the text is '|' and the pairs joined by single
   * spaces, with line breaks inside values kept.
   */
  lemma ExtensionJoined(ext: map<string, string>)
    requires exists k :: k in ext && ext[k] != ""
    requires forall k :: k in ext ==> PlainKey(k) && PlainValue(ext[k])
    ensures RenderExtension(ext) == "|" + Join(PairList(SortedKeys(ext.Keys), ext), ' ')
  {
    var keys := SortedKeys(ext.Keys);
    var l := PairList(keys, ext);
    SomePair(ext);
    var joined := Join(l, ' ');
    assert Unpadded(joined) by {
      SortedKeysPlain(ext);
      PairListShape(keys, ext);
      JoinEnds(l, ' ');
    }
    RenderTrimmed(ext, joined);
  }

  // ------------------------------------------------------------ the CEF line

  /** The seven '|'-separated header fields of cefTemplateText. */
  function CefHeader(e: CefEvent): string
  {
    "CEF:" + Itoa(e.cefVersion) + "|" + e.deviceVendor + "|" + e.deviceProduct + "|" + e.deviceVersion
    + "|" + e.deviceEventClassId + "|" + e.name + "|" + Itoa(e.severity)
  }

  /**
   * SyslogText's value: the header and the extension text, preceded by the
   * formatted time and '|' when the time is set. stamp stands for
   * Time.Format(CefTimeFormat), local-time formatting not being modelled.
   */
  ghost function SyslogLine(e: CefEvent, stamp: string): string
  {
    var templateText := CefHeader(e) + RenderExtension(e.extension);
    if e.time.Some? then stamp + "|" + templateText else templateText
  }

  /** CefEvent.SyslogText: the template never fails, so no error is returned. */
  method SyslogText(e: CefEvent, stamp: string) returns (text: string)
    ensures text == SyslogLine(e, stamp)
  {
    var extensionText := ExtensionText(e.extension);
    var templateText := CefHeader(e) + extensionText;
    if e.time.Some? {
      text := stamp + "|" + templateText;
    } else {
      text := templateText;
    }
  }

  lemma DecimalNoBar(n: nat)
    ensures '|' !in Decimal(n)
  {
    var d := Decimal(n);
    assert forall i :: 0 <= i < |d| ==> IsDigit(d[i]) by {
      ValueOfDecimal(n);
    }
  }

  /** The seven fields of a header, in template order. */
  function HeaderFieldList(e: CefEvent): seq<string>
  {
    ["CEF:" + Itoa(e.cefVersion), e.deviceVendor, e.deviceProduct,
      e.deviceVersion, e.deviceEventClassId, e.name, Itoa(e.severity)]
  }

  /** Seven pieces joined, written out from the left as the template writes them. */
  lemma JoinSeven(a: string, b: string, c: string, d: string, e: string, f: string, g: string, sep: char)
    ensures Join([a, b, c, d, e, f, g], sep)
      == a + [sep] + b + [sep] + c + [sep] + d + [sep] + e + [sep] + f + [sep] + g
  {
    JoinSnoc([a], b, sep);
    assert [a] + [b] == [a, b];
    JoinSnoc([a, b], c, sep);
    assert [a, b] + [c] == [a, b, c];
    JoinSnoc([a, b, c], d, sep);
    assert [a, b, c] + [d] == [a, b, c, d];
    JoinSnoc([a, b, c, d], e, sep);
    assert [a, b, c, d] + [e] == [a, b, c, d, e];
    JoinSnoc([a, b, c, d, e], f, sep);
    assert [a, b, c, d, e] + [f] == [a, b, c, d, e, f];
    JoinSnoc([a, b, c, d, e, f], g, sep);
    assert [a, b, c, d, e, f] + [g] == [a, b, c, d, e, f, g];
  }

  /** The template writes the seven fields joined by '|'. */
  lemma HeaderJoined(e: CefEvent)
    ensures CefHeader(e) == Join(HeaderFieldList(e), '|')
  {
    JoinSeven("CEF:" + Itoa(e.cefVersion), e.deviceVendor, e.deviceProduct,
      e.deviceVersion, e.deviceEventClassId, e.name, Itoa(e.severity), '|');
  }

  /** Itoa never writes a '|'. */
  lemma ItoaNoBar(n: int)
    ensures '|' !in Itoa(n)
  {
    DecimalNoBar(if n < 0 then -n else n);
  }

  /** Splitting a header at '|' gives back its seven fields when none of them holds a '|'. */
  lemma HeaderFields(e: CefEvent)
    requires '|' !in e.deviceVendor && '|' !in e.deviceProduct && '|' !in e.deviceVersion
    requires '|' !in e.deviceEventClassId && '|' !in e.name
    ensures Split(CefHeader(e), '|') == HeaderFieldList(e)
  {
    var fields := HeaderFieldList(e);
    ItoaNoBar(e.cefVersion);
    ItoaNoBar(e.severity);
    assert forall i :: 0 <= i < |fields| ==> '|' !in fields[i];
    HeaderJoined(e);
    SplitJoin(fields, '|');
  }

  // ------------------------------------------------------------ the syslog formatter

  /**
   * CEFSyslogFormatter as written: `^(.*)\|(.*)$` matches only a line that
   * holds a '|' and no line break ('.' does not match '\n'), and its greedy
   * first group ends at the LAST '|'. Without a match the timestamp is the
   * current time, passed in as now.
   */
  function FormatterAsWritten(hostname: string, content: string, now: string): string
  {
    var parts := Split(content, '|');
    if '\n' !in content && |parts| > 1 then
      Join(parts[..|parts| - 1], '|') + " " + hostname + " " + parts[|parts| - 1]
    else
      now + " " + hostname + " " + content
  }

  /** The formatter as the time prefix of SyslogText needs it: split at the FIRST '|'. */
  function Formatter(hostname: string, content: string, now: string): string
  {
    var parts := Split(content, '|');
    if |parts| > 1 then parts[0] + " " + hostname + " " + Join(parts[1..], '|')
    else now + " " + hostname + " " + content
  }

  /** The prefix before the first '|' becomes the timestamp and the rest is kept whole. */
  lemma FormatterSplitsPrefix(hostname: string, stamp: string, rest: string, now: string)
    requires '|' !in stamp
    ensures Formatter(hostname, stamp + "|" + rest, now) == stamp + " " + hostname + " " + rest
  {
    SplitAround(stamp, rest, '|');
    SplitWithoutSep(stamp, '|');
    JoinSplit(rest, '|');
    assert ([stamp] + Split(rest, '|'))[1..] == Split(rest, '|');
  }

  /** With no '|' the current time is used and the content is kept whole. */
  lemma FormatterWithoutStamp(hostname: string, content: string, now: string)
    requires '|' !in content
    ensures Formatter(hostname, content, now) == now + " " + hostname + " " + content
    ensures FormatterAsWritten(hostname, content, now) == now + " " + hostname + " " + content
  {
    SplitWithoutSep(content, '|');
  }

  /** The formatter recovers the time prefix of every line SyslogText writes for an event with a time. */
  lemma FormatterReadsSyslogLine(e: CefEvent, stamp: string, hostname: string, now: string)
    requires e.time.Some? && '|' !in stamp
    ensures Formatter(hostname, SyslogLine(e, stamp), now)
      == stamp + " " + hostname + " " + (CefHeader(e) + RenderExtension(e.extension))
  {
    var rest := CefHeader(e) + RenderExtension(e.extension);
    assert SyslogLine(e, stamp) == stamp + "|" + rest;
    FormatterSplitsPrefix(hostname, stamp, rest, now);
  }

  /** On a line with one '|' and no line break the two formatters agree. */
  lemma FormattersAgree(hostname: string, stamp: string, rest: string, now: string)
    requires '|' !in stamp && '|' !in rest && '\n' !in stamp && '\n' !in rest
    ensures FormatterAsWritten(hostname, stamp + "|" + rest, now) == Formatter(hostname, stamp + "|" + rest, now)
  {
    SplitAround(stamp, rest, '|');
    SplitWithoutSep(stamp, '|');
    SplitWithoutSep(rest, '|');
    assert Split(stamp + "|" + rest, '|') == [stamp, rest];
    assert '\n' !in stamp + "|" + rest;
  }

  /**
   * As written, the formatter does not recover a time prefix followed by a
   * text that holds another '|': the greedy group runs past the prefix; and
   * a line break anywhere makes the pattern fail altogether.
   */
  lemma FormatterAsWrittenMisplits(hostname: string, stamp: string, rest: string, now: string)
    requires '|' !in stamp && '|' in rest
    ensures FormatterAsWritten(hostname, stamp + "|" + rest, now) != stamp + " " + hostname + " " + rest
  {
    var content := stamp + "|" + rest;
    var expected := stamp + " " + hostname + " " + rest;
    var out := FormatterAsWritten(hostname, content, now);
    if '\n' in content {
      assert |out| == |now| + 1 + |expected|;
    } else {
      SplitAround(stamp, rest, '|');
      SplitWithoutSep(stamp, '|');
      var rs := Split(rest, '|');
      SplitCount(rest, '|');
      Patterns.CountPositive(rest, '|');
      var parts := Split(content, '|');
      assert parts == [stamp] + rs;
      assert parts[..|parts| - 1] == [stamp] + rs[..|rs| - 1];
      assert ([stamp] + rs[..|rs| - 1])[1..] == rs[..|rs| - 1];
      assert Join(parts[..|parts| - 1], '|') == stamp + "|" + Join(rs[..|rs| - 1], '|');
      assert out[|stamp|] == '|';
      assert expected[|stamp|] == ' ';
    }
  }

  /** So the formatter as written never puts the time SyslogText wrote in the syslog header. */
  lemma FormatterAsWrittenMisreads(e: CefEvent, stamp: string, hostname: string, now: string)
    requires e.time.Some? && '|' !in stamp
    ensures FormatterAsWritten(hostname, SyslogLine(e, stamp), now)
      != stamp + " " + hostname + " " + (CefHeader(e) + RenderExtension(e.extension))
  {
    var rest := CefHeader(e) + RenderExtension(e.extension);
    assert SyslogLine(e, stamp) == stamp + "|" + rest;
    assert rest[4 + |Itoa(e.cefVersion)|] == '|';
    FormatterAsWrittenMisplits(hostname, stamp, rest, now);
  }

  // ------------------------------------------------------------ events of a flow log

  /** The direction code of a tuple: directionMap's value, 0 for an unknown letter. */
  function DirectionOf(fields: seq<string>): int
  {
    Get(DirectionMap, FieldAt(fields, 6), 0)
  }

  /**
   * The event GetCefEventListFromNsg makes of one tuple: the tuple's time
   * (seconds) as event time and, in milliseconds with int64 wrap-around, as
   * "start"; the flow's rule as "cs1"; addresses and ports as they are; the
   * protocol, direction and outcome letters through their tables (a letter
   * not in a table gives "" or 0); the MAC address with colons as "dmac"
   * for an inbound flow and as "smac" for an outbound one.
   */
  function TupleEvent(ref: TupleRef): CefEvent
  {
    var fields := Split(ref.tuple, ',');
    var epochTime := ParseInt(fields[0]).value;
    var flowDirection := DirectionOf(fields);
    var pairs := map[
      "start" := Itoa(WrapInt64(1000 * epochTime)),
      "cs1" := ref.rule,
      "src" := FieldAt(fields, 1),
      "dst" := FieldAt(fields, 2),
      "spt" := FieldAt(fields, 3),
      "dpt" := FieldAt(fields, 4),
      "proto" := Get(ProtocolMap, FieldAt(fields, 5), "")];
    var withMac := if flowDirection == 0 then pairs["dmac" := Grouped(ref.mac)]
      else pairs["smac" := Grouped(ref.mac)];
    var extension := withMac["deviceDirection" := Itoa(flowDirection)]["outcome" := Get(OutcomeMap, FieldAt(fields, 7), "")];
    CefEvent(CefVersion, NsgDeviceVendor, NsgDeviceProduct, NsgDeviceVersion, EventClassIdFlow,
      Some(epochTime), EventClassIdFlow, 0, extension)
  }

  /** Converting the tuples of one sub-flow (the innermost loop). */
  method SubFlowEvents(resourceId: string, rule: string, subFlow: SubFlow) returns (events: seq<CefEvent>, err: Option<Error>)
    ensures Outcome(events, err, TuplesOf(resourceId, rule, subFlow.mac, subFlow.flowTuples), TupleEvent)
  {
    var ts := subFlow.flowTuples;
    events := [];
    var l := 0;
    while l < |ts|
      invariant 0 <= l <= |ts|
      invariant Converted(events, TuplesOf(resourceId, rule, subFlow.mac, ts[..l]), TupleEvent)
    {
      var flowTuple := ts[l];
      var tuples := Split(flowTuple, ',');
      if |tuples| != 8 {
        TupleStop(resourceId, rule, subFlow.mac, ts, l, events, TupleEvent);
        return events, Some(TupleTokens(flowTuple));
      }
      var event := TupleEventOf(resourceId, rule, subFlow.mac, flowTuple, tuples);
      TupleNext(resourceId, rule, subFlow.mac, ts, l, events, event, TupleEvent);
      events := events + [event];
      l := l + 1;
    }
    assert ts[..l] == ts;
    TuplesDone(TuplesOf(resourceId, rule, subFlow.mac, ts), events, TupleEvent);
    return events, None;
  }

  /** The body of the innermost loop once the tuple has its eight fields: the extension filled in key by key. */
  method TupleEventOf(resourceId: string, rule: string, mac: string, flowTuple: string, tuples: seq<string>)
    returns (event: CefEvent)
    requires tuples == Split(flowTuple, ',') && |tuples| == 8
    ensures event == TupleEvent(TupleRef(resourceId, rule, mac, flowTuple))
  {
    event := NewNsgCefEvent();
    var epochTime := ParseInt(tuples[0]).value;
    event := event.(time := Some(epochTime), name := EventClassIdFlow, deviceEventClassId := EventClassIdFlow, severity := 0);
    var extension := event.extension;
    extension := extension["start" := Itoa(WrapInt64(1000 * epochTime))];
    extension := extension["cs1" := rule];
    extension := extension["src" := tuples[1]];
    extension := extension["dst" := tuples[2]];
    extension := extension["spt" := tuples[3]];
    extension := extension["dpt" := tuples[4]];
    extension := extension["proto" := Get(ProtocolMap, tuples[5], "")];
    var flowDirection := Get(DirectionMap, tuples[6], 0);
    var formatted := FormatMac(mac);
    if flowDirection == 0 {
      extension := extension["dmac" := formatted];
    } else if flowDirection == 1 {
      extension := extension["smac" := formatted];
    }
    extension := extension["deviceDirection" := Itoa(flowDirection)];
    extension := extension["outcome" := Get(OutcomeMap, tuples[7], "")];
    event := event.(extension := extension);
  }

  /** Converting the sub-flows of one flow. */
  method FlowEvents(resourceId: string, flow: Flow) returns (events: seq<CefEvent>, err: Option<Error>)
    ensures Outcome(events, err, SubFlowTuples(resourceId, flow.rule, flow.flows), TupleEvent)
  {
    var subs := flow.flows;
    events := [];
    var k := 0;
    while k < |subs|
      invariant 0 <= k <= |subs|
      invariant Outcome(events, None, SubFlowTuples(resourceId, flow.rule, subs[..k]), TupleEvent)
    {
      var more, e := SubFlowEvents(resourceId, flow.rule, subs[k]);
      SubFlowStep(resourceId, flow.rule, subs, k, events, more, e, TupleEvent);
      events := events + more;
      if e.Some? {
        return events, e;
      }
      k := k + 1;
    }
    assert subs[..k] == subs;
    return events, None;
  }

  /** Converting the flows of one record. */
  method RecordEvents(record: Record) returns (events: seq<CefEvent>, err: Option<Error>)
    ensures Outcome(events, err, RecordTuples(record), TupleEvent)
  {
    var flows := record.properties.flows;
    events := [];
    var j := 0;
    while j < |flows|
      invariant 0 <= j <= |flows|
      invariant Outcome(events, None, FlowTuples(record.resourceId, flows[..j]), TupleEvent)
    {
      var more, e := FlowEvents(record.resourceId, flows[j]);
      FlowStep(record.resourceId, flows, j, events, more, e, TupleEvent);
      events := events + more;
      if e.Some? {
        return events, e;
      }
      j := j + 1;
    }
    assert flows[..j] == flows;
    return events, None;
  }

  /**
   * GetCefEventListFromNsg: one event per tuple of the records strictly
   * after startTime, in record, flow, sub-flow and tuple order. At the
   * first tuple without eight fields it returns an empty list (the list's
   * Events are only set on success) and an error naming that tuple.
   */
  method GetCefEventListFromNsg(nsgLog: NsgLog, startTime: Instant) returns (events: seq<CefEvent>, err: Option<Error>)
    ensures var refs := TuplesAfter(nsgLog.records, startTime);
      && (err.None? <==> FirstBad(refs) == |refs|)
      && (err.None? ==> Converted(events, refs, TupleEvent))
      && (err.Some? ==> events == [] && err == Some(TupleTokens(refs[FirstBad(refs)].tuple)))
  {
    var records := nsgLog.records;
    var collected: seq<CefEvent> := [];
    var i := 0;
    while i < |records|
      invariant 0 <= i <= |records|
      invariant Outcome(collected, None, TuplesAfter(records[..i], startTime), TupleEvent)
    {
      var record := records[i];
      var more, e := [], None;
      if record.time > startTime {
        more, e := RecordEvents(record);
      }
      RecordStep(records, startTime, i, collected, more, e, TupleEvent, RecordTuples);
      collected := collected + more;
      if e.Some? {
        return [], e;
      }
      i := i + 1;
    }
    assert records[..i] == records;
    assert TuplesAfter(records, startTime)[..|collected|] == TuplesAfter(records, startTime);
    return collected, None;
  }

  /**
   * The event and the flat flow log of the same well-formed tuple carry the
   * same facts: time, rule, addresses, ports, and the protocol, direction
   * and outcome letters read through the tables.
   */
  lemma TupleEventOfFlowLog(ref: TupleRef)
    requires WellFormed(ref)
    ensures var log := FlowLog(ref); var ext := TupleEvent(ref).extension;
      && TupleEvent(ref).time == Some(log.timestamp)
      && "cs1" in ext && Some(ext["cs1"]) == log.rule
      && "src" in ext && ext["src"] == log.sourceIp
      && "dst" in ext && ext["dst"] == log.destinationIp
      && "spt" in ext && ext["spt"] == log.sourcePort
      && "dpt" in ext && ext["dpt"] == log.destinationPort
      && "proto" in ext && ext["proto"] == Get(ProtocolMap, log.protocol, "")
      && "outcome" in ext && ext["outcome"] == Get(OutcomeMap, log.traffic, "")
  {
  }

  /**
   * Against the entries GetFlowLogsAfter returns as written: the event of
   * tuple n and entry n agree on the time, addresses, ports, protocol and
   * outcome, while the event's rule is the tuple's own flow rule and the
   * entry's is what the shared flow variable last held.
   */
  lemma TupleEventOfAsWrittenFlowLog(records: seq<Record>, t: Instant, n: nat)
    requires n < |TuplesAfter(records, t)| && WellFormed(TuplesAfter(records, t)[n])
    ensures var ref, a := TuplesAfter(records, t)[n], AsWrittenTuples(records, t);
      && n < |a|
      && var log := FlowLog(a[n]); var ext := TupleEvent(ref).extension;
      && TupleEvent(ref).time == Some(log.timestamp)
      && "cs1" in ext && ext["cs1"] == ref.rule && log.rule == Some(a[n].rule)
      && log.resourceId == Some(RecordVarId(records, t))
      && "src" in ext && ext["src"] == log.sourceIp
      && "dst" in ext && ext["dst"] == log.destinationIp
      && "spt" in ext && ext["spt"] == log.sourcePort
      && "dpt" in ext && ext["dpt"] == log.destinationPort
      && "proto" in ext && ext["proto"] == Get(ProtocolMap, log.protocol, "")
      && "outcome" in ext && ext["outcome"] == Get(OutcomeMap, log.traffic, "")
  {
    var ref, a := TuplesAfter(records, t)[n], AsWrittenTuples(records, t);
    AsWrittenTuplesShape(records, t);
    assert a[n] == ref.(resourceId := RecordVarId(records, t), rule := a[n].rule);
    FlowLogRetargeted(ref, RecordVarId(records, t), a[n].rule);
    TupleEventOfFlowLog(ref);
  }

  /**
   * The MAC address goes to "smac" exactly when the flow is outbound ("O")
   * and to "dmac" otherwise, and deviceDirection says which.
   */
  lemma TupleEventDirection(ref: TupleRef)
    requires WellFormed(ref)
    ensures var log := FlowLog(ref); var ext := TupleEvent(ref).extension;
      && ("smac" in ext <==> log.trafficFlow == "O")
      && ("dmac" in ext <==> log.trafficFlow != "O")
      && ("smac" in ext ==> ext["smac"] == log.mac)
      && ("dmac" in ext ==> ext["dmac"] == log.mac)
      && "deviceDirection" in ext
      && ext["deviceDirection"] == (if log.trafficFlow == "O" then "1" else "0")
  {
  }

  /** The keys of a tuple's extension: the nine fixed ones and one MAC key. */
  lemma TupleEventKeys(ref: TupleRef)
    ensures var ext := TupleEvent(ref).extension;
      ext.Keys == {"start", "cs1", "src", "dst", "spt", "dpt", "proto", "deviceDirection", "outcome"}
        + (if DirectionOf(Split(ref.tuple, ',')) == 0 then {"dmac"} else {"smac"})
  {
  }

  /** "start" is the tuple time in milliseconds, for every time whose milliseconds fit in 64 bits. */
  lemma TupleEventStart(ref: TupleRef)
    requires var ms := 1000 * FlowLog(ref).timestamp; MinInt64 <= ms <= MaxInt64
    ensures "start" in TupleEvent(ref).extension
    ensures ParseInt(TupleEvent(ref).extension["start"]) == IntParse(1000 * FlowLog(ref).timestamp, true)
  {
    ParseIntItoa(1000 * FlowLog(ref).timestamp);
  }
}
