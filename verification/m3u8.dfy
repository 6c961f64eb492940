/** The line structure both playlist scans share (src/utils/fetchSegments.ts
    and src/utils/parseManifest.ts): the text is split on '\n', each line is
    trimmed, and a line starting with the scanned tag counts only when the
    next trimmed line is a URI line. */
module M3u8 {
  import opened Text

  /** A trimmed line of a playlist, as one scan sees it. */
  datatype LineKind =
    | TagLine(rest: string)   // starts with the scanned tag; `rest` follows it
    | UriLine(uri: string)    // non-empty and not starting with '#'
    | OtherLine               // anything else: blank lines, other tags, comments

  /** `line?.trim()` is truthy and does not start with '#'. */
  predicate IsUriLine(t: string) {
    t != "" && t[0] != '#'
  }

  /** How a scan for `tag` reads one raw line. */
  function Classify(line: string, tag: string): (k: LineKind)
    requires |tag| > 0 && tag[0] == '#'
    ensures k.TagLine? <==> StartsWith(Trim(line), tag)
    ensures k.TagLine? ==> k.rest == Trim(line)[|tag|..]
    ensures k.UriLine? <==> IsUriLine(Trim(line))
    ensures k.UriLine? ==> k.uri == Trim(line)
  {
    var t := Trim(line);
    if StartsWith(t, tag) then TagLine(t[|tag|..])
    else if IsUriLine(t) then UriLine(t)
    else OtherLine
  }

  /** A line already free of surrounding white space is classified as is. */
  lemma ClassifyTrimmed(line: string, tag: string)
    requires |tag| > 0 && tag[0] == '#'
    requires line == [] || (!IsSpace(line[0]) && !IsSpace(line[|line| - 1]))
    ensures Classify(line, tag)
         == if StartsWith(line, tag) then TagLine(line[|tag|..])
            else if IsUriLine(line) then UriLine(line)
            else OtherLine
  {
    TrimUnchanged(line);
  }

  /** The playlist text split on '\n' with every line classified. */
  function Lines(text: string, tag: string): (kinds: seq<LineKind>)
    requires |tag| > 0 && tag[0] == '#'
    ensures |kinds| == |Split(text, '\n')|
    ensures forall i :: 0 <= i < |kinds| ==> kinds[i] == Classify(Split(text, '\n')[i], tag)
  {
    var raw := Split(text, '\n');
    seq(|raw|, i requires 0 <= i < |raw| => Classify(raw[i], tag))
  }

  /** Line `i` is a tag line and the next line is a URI line. */
  predicate PairAt(kinds: seq<LineKind>, i: nat)
    requires i < |kinds|
  {
    kinds[i].TagLine? && i + 1 < |kinds| && kinds[i + 1].UriLine?
  }

  /** The tag positions among the first `n` lines that are paired with a URI,
      in ascending order. */
  function Pairs(kinds: seq<LineKind>, n: nat): (e: seq<nat>)
    requires n <= |kinds|
    ensures forall k :: 0 <= k < |e| ==> e[k] < n && PairAt(kinds, e[k])
    ensures forall k, l :: 0 <= k < l < |e| ==> e[k] < e[l]
    decreases n
  {
    if n == 0 then []
    else Pairs(kinds, n - 1) + (if PairAt(kinds, n - 1) then [n - 1] else [])
  }

  /** Conversely, every paired tag below `n` is listed. */
  lemma {:induction false} PairsComplete(kinds: seq<LineKind>, n: nat, i: nat)
    requires i < n <= |kinds| && PairAt(kinds, i)
    ensures i in Pairs(kinds, n)
    decreases n
  {
    if i < n - 1 {
      PairsComplete(kinds, n - 1, i);
    }
  }
}
