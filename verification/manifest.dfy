/** Variant-stream extraction from an HLS master playlist
    (src/utils/parseManifest.ts), with the fetch stripped off: the playlist
    text is an input, and parseInt / parseFloat are parameters. */
module Manifest {
  import opened Base
  import opened Text
  import opened M3u8

  /** The variant-stream directive of section 4.3.4.2 of RFC 8216; it is 18
      characters long, the count the attribute text is cut at. */
  const StreamInf: string := "#EXT-X-STREAM-INF:"

  /** StreamInfo: one variant of the presentation. An attribute that was not
      in the tag is None; present but empty text stays Some(""). */
  datatype Variant = Variant(
    url: string,
    bandwidth: int,
    resolution: Option<string>,
    codecs: Option<string>,
    frameRate: Option<real>)

  /** One comma-separated piece of the attribute list, read as
      `[key, value] = pair.split('=')`: it is kept only when both the text
      before the first '=' and the text between the first and second '='
      are non-empty. A kept key has no '=' and no surrounding white space;
      a kept value has no '=', no quote character and no surrounding white
      space. */
  function ParsePair(pair: string): (kv: Option<(string, string)>)
    ensures var parts := Split(pair, '=');
      kv.Some? <==> |parts| >= 2 && parts[0] != "" && parts[1] != ""
    ensures kv.Some? ==> var (k, v) := kv.value;
      && '=' !in k && (k == [] || (!IsSpace(k[0]) && !IsSpace(k[|k| - 1])))
      && '=' !in v && '"' !in v && (v == [] || (!IsSpace(v[0]) && !IsSpace(v[|v| - 1])))
  {
    var parts := Split(pair, '=');
    if |parts| >= 2 && parts[0] != "" && parts[1] != "" then
      var r := RemoveAll(parts[1], '"');
      TrimKeepsAbsent(parts[0], '=');
      RemoveAllKeepsAbsent(parts[1], '"', '=');
      TrimKeepsAbsent(r, '=');
      TrimKeepsAbsent(r, '"');
      Some((Trim(parts[0]), Trim(r)))
    else None
  }

  /** Removing a character never introduces another. */
  lemma {:induction false} RemoveAllKeepsAbsent(s: string, c: char, d: char)
    requires d !in s
    ensures d !in RemoveAll(s, c)
    decreases |s|
  {
    if |s| > 0 {
      assert forall x :: x in s[1..] ==> x in s;
      RemoveAllKeepsAbsent(s[1..], c, d);
    }
  }

  /** Trimming never introduces a character. */
  lemma TrimKeepsAbsent(s: string, c: char)
    requires c !in s
    ensures c !in Trim(s)
  {
    TrimStartKeepsAbsent(s, c);
    TrimEndKeepsAbsent(TrimStart(s), c);
  }

  lemma {:induction false} TrimStartKeepsAbsent(s: string, c: char)
    requires c !in s
    ensures c !in TrimStart(s)
    decreases |s|
  {
    if |s| > 0 && IsSpace(s[0]) {
      assert forall x :: x in s[1..] ==> x in s;
      TrimStartKeepsAbsent(s[1..], c);
    }
  }

  lemma {:induction false} TrimEndKeepsAbsent(s: string, c: char)
    requires c !in s
    ensures c !in TrimEnd(s)
    decreases |s|
  {
    if |s| > 0 && IsSpace(s[|s| - 1]) {
      assert forall x :: x in s[..|s| - 1] ==> x in s;
      TrimEndKeepsAbsent(s[..|s| - 1], c);
    }
  }

  /** Every piece of an attribute text, parsed. */
  function Pieces(attrText: string): (ps: seq<Option<(string, string)>>)
    ensures var pairs := Split(attrText, ',');
      && |ps| == |pairs|
      && forall i :: 0 <= i < |ps| ==> ps[i] == ParsePair(pairs[i])
  {
    var pairs := Split(attrText, ',');
    seq(|pairs|, i requires 0 <= i < |pairs| => ParsePair(pairs[i]))
  }

  /** Piece `j` among the first `n` is kept and has key `key`. */
  predicate Defines(ps: seq<Option<(string, string)>>, n: nat, j: nat, key: string)
    requires n <= |ps|
  {
    j < n && ps[j].Some? && ps[j].value.0 == key
  }

  /** The `for...of` loop over the first `n` pieces, writing into a record. */
  function AttrFold(ps: seq<Option<(string, string)>>, n: nat): (m: map<string, string>)
    requires n <= |ps|
    decreases n
  {
    if n == 0 then map[]
    else
      var m := AttrFold(ps, n - 1);
      match ps[n - 1]
      case Some((k, v)) => m[k := v]
      case None => m
  }

  /** A key is in the record exactly when some kept piece defines it. */
  lemma {:induction false} AttrFoldKeys(ps: seq<Option<(string, string)>>, n: nat, key: string)
    requires n <= |ps|
    ensures key in AttrFold(ps, n) <==> exists j: nat :: Defines(ps, n, j, key)
    decreases n
  {
    if n > 0 {
      AttrFoldKeys(ps, n - 1, key);
      var m := AttrFold(ps, n - 1);
      if ps[n - 1].Some? && ps[n - 1].value.0 == key {
        assert AttrFold(ps, n) == m[key := ps[n - 1].value.1];
        assert Defines(ps, n, n - 1, key);
      } else {
        assert key in AttrFold(ps, n) <==> key in m;
        if key in m {
          var j: nat :| Defines(ps, n - 1, j, key);
          assert Defines(ps, n, j, key);
        }
        if j: nat :| Defines(ps, n, j, key) {
          assert Defines(ps, n - 1, j, key);
        }
      }
    }
  }

  /** A later duplicate key overwrites an earlier one: the value recorded for
      a key is the one from the last piece defining it. */
  lemma {:induction false} AttrFoldLastWins(ps: seq<Option<(string, string)>>, n: nat, j: nat, key: string)
    requires n <= |ps|
    requires Defines(ps, n, j, key)
    requires forall l :: j < l < n ==> ps[l].Some? ==> ps[l].value.0 != key
    ensures key in AttrFold(ps, n)
    ensures AttrFold(ps, n)[key] == ps[j].value.1
    decreases n
  {
    if j < n - 1 {
      AttrFoldLastWins(ps, n - 1, j, key);
    }
  }

  /** The attribute record of one tag: the text after the directive split on
      ',', each piece parsed, folded left to right. */
  function Attributes(attrText: string): map<string, string> {
    var ps := Pieces(attrText);
    AttrFold(ps, |ps|)
  }

  /** `attributes[key]`: undefined when the key was never written. */
  function Lookup(attrs: map<string, string>, key: string): Option<string> {
    if key in attrs then Some(attrs[key]) else None
  }

  /** The variant for a tag whose attribute text is `attrText` and whose next
      line is `url`. BANDWIDTH falls back to '0' when absent or empty; a
      FRAME-RATE is parsed only when present and non-empty. */
  function MakeVariant(a: map<string, string>, url: string, parseInt: string -> int, parseFloat: string -> real): (v: Variant)
    ensures
      && v.url == url
      && v.bandwidth == (if "BANDWIDTH" in a && a["BANDWIDTH"] != "" then parseInt(a["BANDWIDTH"]) else 0)
      && (v.resolution.Some? <==> "RESOLUTION" in a)
      && (v.resolution.Some? ==> v.resolution.value == a["RESOLUTION"])
      && (v.codecs.Some? <==> "CODECS" in a)
      && (v.codecs.Some? ==> v.codecs.value == a["CODECS"])
      && (v.frameRate.Some? <==> "FRAME-RATE" in a && a["FRAME-RATE"] != "")
      && (v.frameRate.Some? ==> v.frameRate.value == parseFloat(a["FRAME-RATE"]))
  {
    var bw := Lookup(a, "BANDWIDTH");
    var fr := Lookup(a, "FRAME-RATE");
    Variant(
      url,
      if bw.Some? && bw.value != "" then parseInt(bw.value) else 0,
      Lookup(a, "RESOLUTION"),
      Lookup(a, "CODECS"),
      if fr.Some? && fr.value != "" then Some(parseFloat(fr.value)) else None)
  }

  /** The attribute record of every directive line, computed up front; other
      lines get an empty record that is never read. */
  function TagAttributes(kinds: seq<LineKind>): (attrs: seq<map<string, string>>)
    ensures |attrs| == |kinds|
    ensures forall i :: 0 <= i < |kinds| && kinds[i].TagLine? ==> attrs[i] == Attributes(kinds[i].rest)
  {
    seq(|kinds|, i requires 0 <= i < |kinds| => if kinds[i].TagLine? then Attributes(kinds[i].rest) else map[])
  }

  /** The `for` loop over the first `n` playlist lines: the k-th variant comes
      from the k-th directive line whose next line is a URI line. */
  function ScanVariants(kinds: seq<LineKind>, attrs: seq<map<string, string>>, n: nat,
                        parseInt: string -> int, parseFloat: string -> real): (vs: seq<Variant>)
    requires n <= |kinds| == |attrs|
    ensures var e := Pairs(kinds, n);
      && |vs| == |e|
      && forall k :: 0 <= k < |e| ==>
           vs[k] == MakeVariant(attrs[e[k]], kinds[e[k] + 1].uri, parseInt, parseFloat)
    decreases n
  {
    if n == 0 then []
    else
      var prev := ScanVariants(kinds, attrs, n - 1, parseInt, parseFloat);
      if PairAt(kinds, n - 1) then
        var vs := prev + [MakeVariant(attrs[n - 1], kinds[n].uri, parseInt, parseFloat)];
        assert forall k :: 0 <= k < |prev| ==> vs[k] == prev[k];
        vs
      else
        prev
  }

  /** parseHlsManifest once the playlist text has arrived: one variant per
      directive line followed by a URI line, in line order, built from the
      attributes after the directive and the trimmed URI line. */
  function ParseHls(manifest: string, parseInt: string -> int, parseFloat: string -> real): (vs: seq<Variant>)
    ensures var kinds := Lines(manifest, StreamInf); var e := Pairs(kinds, |kinds|);
      && |vs| == |e|
      && forall k :: 0 <= k < |e| ==>
           vs[k] == MakeVariant(Attributes(kinds[e[k]].rest), kinds[e[k] + 1].uri, parseInt, parseFloat)
  {
    var kinds := Lines(manifest, StreamInf);
    ScanVariants(kinds, TagAttributes(kinds), |kinds|, parseInt, parseFloat)
  }

  /** Every directive line followed by a URI line yields a variant. */
  lemma ParseHlsComplete(manifest: string, parseInt: string -> int, parseFloat: string -> real, i: nat)
    requires var kinds := Lines(manifest, StreamInf); i < |kinds| && PairAt(kinds, i)
    ensures exists k :: 0 <= k < |ParseHls(manifest, parseInt, parseFloat)| && Pairs(Lines(manifest, StreamInf), |Lines(manifest, StreamInf)|)[k] == i
  {
    var kinds := Lines(manifest, StreamInf);
    PairsComplete(kinds, |kinds|, i);
  }

  /** A quoted attribute value containing a comma is cut at the comma:
      `CODECS="a,b"` records CODECS as "a" and drops the rest. */
  lemma QuotedCommaTruncates(attrText: string)
    requires attrText == "CODECS=\"a,b\""
    ensures Attributes(attrText) == map["CODECS" := "a"]
  {
    var ps := QuotedCommaParsed(attrText);
    FoldOneKept(ps);
  }

  lemma FoldOneKept(ps: seq<Option<(string, string)>>)
    requires |ps| == 2 && ps[0] == Some(("CODECS", "a")) && ps[1] == None
    ensures AttrFold(ps, 2) == map["CODECS" := "a"]
  {
    assert AttrFold(ps, 1) == map["CODECS" := "a"];
  }

  lemma QuotedCommaParsed(attrText: string) returns (ps: seq<Option<(string, string)>>)
    requires attrText == "CODECS=\"a,b\""
    ensures ps == Pieces(attrText)
    ensures |ps| == 2 && ps[0] == Some(("CODECS", "a")) && ps[1] == None
  {
    var pairs := QuotedCommaPieces(attrText);
    QuotedCommaFirst(pairs[0]);
    QuotedCommaSecond(pairs[1]);
    ps := Pieces(attrText);
  }

  lemma QuotedCommaPieces(attrText: string) returns (pairs: seq<string>)
    requires attrText == "CODECS=\"a,b\""
    ensures pairs == Split(attrText, ',') && |pairs| == 2
    ensures pairs[0] == "CODECS=\"a" && pairs[1] == "b\""
  {
    pairs := ["CODECS=\"a", "b\""];
    assert Join(pairs, ',') == attrText;
    SplitJoin(pairs, ',');
  }

  lemma QuotedCommaFirst(pair: string)
    requires pair == "CODECS=\"a"
    ensures ParsePair(pair) == Some(("CODECS", "a"))
  {
    var parts := ["CODECS", "\"a"];
    assert Join(parts, '=') == pair;
    SplitJoin(parts, '=');
    TrimUnchanged(parts[0]);
    QuotedValue(parts[1]);
  }

  lemma QuotedValue(v: string)
    requires v == "\"a"
    ensures Trim(RemoveAll(v, '"')) == "a"
  {
    assert v[1..] == "a";
    assert RemoveAll(v[1..], '"') == "a";
    assert RemoveAll(v, '"') == "a";
    TrimUnchanged("a");
  }

  lemma QuotedCommaSecond(pair: string)
    requires pair == "b\""
    ensures ParsePair(pair) == None
  {
    SplitNoSeparator(pair, '=');
  }

  /** detectStreamType: a substring test, case-sensitive, ".m3u8" first. */
  datatype StreamType = Hls | Dash | Progressive

  function DetectStreamType(url: string): (t: StreamType) {
    if Contains(url, ".m3u8") then Hls
    else if Contains(url, ".mpd") then Dash
    else Progressive
  }

  /** The stream type in terms of where the markers occur: "hls" exactly
      when ".m3u8" occurs anywhere, "dash" exactly when ".mpd" occurs and
      ".m3u8" does not. */
  lemma DetectStreamTypeOccurs(url: string)
    ensures DetectStreamType(url) == Hls <==> exists i: nat :: OccursAt(url, ".m3u8", i)
    ensures DetectStreamType(url) == Dash <==>
      (!exists i: nat :: OccursAt(url, ".m3u8", i)) && exists i: nat :: OccursAt(url, ".mpd", i)
    ensures DetectStreamType(url) == Progressive <==>
      (!exists i: nat :: OccursAt(url, ".m3u8", i)) && !exists i: nat :: OccursAt(url, ".mpd", i)
  {
    ContainsIffOccurs(url, ".m3u8");
    ContainsIffOccurs(url, ".mpd");
  }
}
