/**
 * formatMac, which parser/types.go, parser/common.go and model/types.go each
 * declare with the same body: a colon after every second character of a MAC
 * address written as bare hexadecimal digits.
 */
module MacAddress {

  /** Reference definition: the characters in pairs, the pairs joined by ':'. */
  function Grouped(s: string): string
    decreases |s|
  {
    if |s| <= 2 then s else s[..2] + ":" + Grouped(s[2..])
  }

  /** The colon (if any) that stands before the character at index i once i characters are grouped. */
  function ColonBefore(i: nat): string
  {
    if i % 2 == 0 && i > 0 then ":" else ""
  }

  /**
   * formatMac: copies each character and writes ':' after each character at
   * an odd index other than the last.
   */
  method FormatMac(s: string) returns (r: string)
    ensures r == Grouped(s)
  {
    var buffer := "";
    var last := |s| - 1;
    var i := 0;
    while i < |s|
      invariant 0 <= i <= |s|
      invariant buffer == Grouped(s[..i]) + (if i < |s| then ColonBefore(i) else "")
    {
      GroupedSnoc(s[..i], s[i]);
      assert s[..i + 1] == s[..i] + [s[i]];
      buffer := buffer + [s[i]];
      if i % 2 == 1 && i != last {
        buffer := buffer + ":";
      }
      i := i + 1;
    }
    assert s[..i] == s;
    r := buffer;
  }

  /** Appending one character to the grouped text appends it, preceded by the colon its index calls for. */
  lemma {:induction false} GroupedSnoc(t: string, c: char)
    ensures Grouped(t + [c]) == Grouped(t) + ColonBefore(|t|) + [c]
    decreases |t|
  {
    if |t| > 2 {
      GroupedSnoc(t[2..], c);
      assert (t + [c])[..2] == t[..2];
      assert (t + [c])[2..] == t[2..] + [c];
    } else if |t| == 2 {
      assert (t + [c])[..2] == t;
      assert (t + [c])[2..] == [c];
    }
  }

  /** n characters come out as n + (n - 1) / 2 characters. */
  lemma {:induction false} GroupedLength(s: string)
    ensures |Grouped(s)| == if |s| == 0 then 0 else |s| + (|s| - 1) / 2
    decreases |s|
  {
    if |s| > 2 {
      GroupedLength(s[2..]);
    }
  }

  /** Character j of the input sits at index j + j / 2; after an odd j other than the last comes ':'. */
  lemma {:induction false} GroupedAt(s: string, j: nat)
    requires j < |s|
    ensures j + j / 2 < |Grouped(s)| && Grouped(s)[j + j / 2] == s[j]
    ensures j % 2 == 1 && j < |s| - 1 ==> j + j / 2 + 1 < |Grouped(s)| && Grouped(s)[j + j / 2 + 1] == ':'
    decreases |s|
  {
    GroupedLength(s);
    if |s| > 2 && j >= 2 {
      GroupedAt(s[2..], j - 2);
      assert Grouped(s) == s[..2] + ":" + Grouped(s[2..]);
      assert (j - 2) + (j - 2) / 2 + 3 == j + j / 2;
    }
  }

  /** The inverse: drops every third character. */
  function Ungroup(r: string): string
    decreases |r|
  {
    if |r| <= 2 then r else r[..2] + Ungroup(r[3..])
  }

  /** Removing the inserted colons restores the input. */
  lemma {:induction false} UngroupGrouped(s: string)
    ensures Ungroup(Grouped(s)) == s
    decreases |s|
  {
    if |s| > 2 {
      UngroupGrouped(s[2..]);
      var g := Grouped(s);
      assert g[..2] == s[..2];
      assert g[3..] == Grouped(s[2..]);
      assert s[..2] + s[2..] == s;
    }
  }

  /** A leading pair is followed by ':' whenever more characters follow. */
  lemma GroupedPair(p: string, t: string)
    requires |p| == 2 && |t| > 0
    ensures Grouped(p + t) == p + ":" + Grouped(t)
  {
    assert (p + t)[..2] == p && (p + t)[2..] == t;
  }

  /** The address of the sample flow log. */
  lemma SampleMac(s: string, r: string)
    requires s == "000D3AF33854" && r == "00:0D:3A:F3:38:54"
    ensures Grouped(s) == r
  {
    var a, b, c, d, e, f := "00", "0D", "3A", "F3", "38", "54";
    var colon := ":";
    assert s == a + (b + (c + (d + (e + f))));
    GroupedPair(e, f);
    GroupedPair(d, e + f);
    GroupedPair(c, d + (e + f));
    GroupedPair(b, c + (d + (e + f)));
    GroupedPair(a, b + (c + (d + (e + f))));
    assert r == a + colon + (b + colon + (c + colon + (d + colon + (e + colon + f))));
  }
}
