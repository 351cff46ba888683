/**
 * Turning what the user typed, or the lines of a dork or proxy file, into the
 * parser's lists. Reading the file is not modelled: a file is the sequence of
 * its lines, or `None` when the path does not exist.
 */
module Inputs {
  import opened Wrappers
  import opened PyStr
  import Proxies

  /** `[line.strip() for line in f if line.strip()]` */
  function CleanLines(lines: seq<string>): seq<string>
    decreases |lines|
  {
    if lines == [] then []
    else
      var t := Strip(lines[|lines| - 1]);
      CleanLines(lines[..|lines| - 1]) + (if t != "" then [t] else [])
  }

  /** Every line, stripped. */
  function StrippedLines(lines: seq<string>): (r: seq<string>)
    ensures |r| == |lines|
    decreases |lines|
  {
    if lines == [] then [] else StrippedLines(lines[..|lines| - 1]) + [Strip(lines[|lines| - 1])]
  }

  /** How many lines hold something other than whitespace. */
  function NonBlankCount(lines: seq<string>): nat
    decreases |lines|
  {
    if lines == [] then 0
    else NonBlankCount(lines[..|lines| - 1]) + (if AllSpace(lines[|lines| - 1]) then 0 else 1)
  }

  /** Cleaning keeps the stripped lines in their order. */
  lemma {:induction false} CleanLinesInOrder(lines: seq<string>)
    ensures IsSubsequence(CleanLines(lines), StrippedLines(lines))
    decreases |lines|
  {
    if lines != [] {
      var n := |lines| - 1;
      CleanLinesInOrder(lines[..n]);
      var c := CleanLines(lines[..n]);
      var t := Strip(lines[n]);
      var s := StrippedLines(lines);
      assert lines[..|lines| - 1] == lines[..n];
      assert s[..|s| - 1] == StrippedLines(lines[..n]) && s[|s| - 1] == t;
      if t != "" {
        var r := c + [t];
        assert CleanLines(lines) == r;
        assert r[..|r| - 1] == c && r[|r| - 1] == t;
      } else {
        assert CleanLines(lines) == c;
      }
    }
  }

  /** No cleaned line is empty or has whitespace left at an end. */
  lemma {:induction false} CleanLinesStripped(lines: seq<string>)
    ensures forall i :: 0 <= i < |CleanLines(lines)| ==>
      CleanLines(lines)[i] != "" && Strip(CleanLines(lines)[i]) == CleanLines(lines)[i]
    decreases |lines|
  {
    if lines != [] {
      var n := |lines| - 1;
      CleanLinesStripped(lines[..n]);
      StripIdempotent(lines[n]);
    }
  }

  /** One cleaned line for every line that is not all whitespace. */
  lemma {:induction false} CleanLinesCount(lines: seq<string>)
    ensures |CleanLines(lines)| == NonBlankCount(lines)
    decreases |lines|
  {
    if lines != [] {
      var n := |lines| - 1;
      CleanLinesCount(lines[..n]);
      StripBlank(lines[n]);
    }
  }

  /** A line that is not all whitespace is never dropped. */
  lemma {:induction false} CleanLinesKeepsNonBlank(lines: seq<string>)
    ensures forall i :: 0 <= i < |lines| && !AllSpace(lines[i]) ==> Strip(lines[i]) in CleanLines(lines)
    decreases |lines|
  {
    if lines != [] {
      var n := |lines| - 1;
      var init := lines[..n];
      var t := Strip(lines[n]);
      assert CleanLines(lines) == CleanLines(init) + (if t != "" then [t] else []);
      CleanLinesKeepsNonBlank(init);
      StripBlank(lines[n]);
      forall i | 0 <= i < |lines| && !AllSpace(lines[i]) ensures Strip(lines[i]) in CleanLines(lines) {
        if i < n {
          assert lines[i] == init[i];
          assert Strip(init[i]) in CleanLines(init);
        }
      }
    }
  }

  /**
   * Cleaning gives the stripped lines in their order, none of them empty or
   * with whitespace left at an end, and one for every line that is not all
   * whitespace.
   */
  lemma CleanLinesSpec(lines: seq<string>)
    ensures IsSubsequence(CleanLines(lines), StrippedLines(lines))
    ensures forall i :: 0 <= i < |CleanLines(lines)| ==>
      CleanLines(lines)[i] != "" && Strip(CleanLines(lines)[i]) == CleanLines(lines)[i]
    ensures |CleanLines(lines)| == NonBlankCount(lines)
    ensures forall i :: 0 <= i < |lines| && !AllSpace(lines[i]) ==> Strip(lines[i]) in CleanLines(lines)
  {
    CleanLinesInOrder(lines);
    CleanLinesStripped(lines);
    CleanLinesCount(lines);
    CleanLinesKeepsNonBlank(lines);
  }

  /**
   * `load_dorks`: choice "1" gives the typed dork as it is; otherwise the
   * cleaned lines of the file, or nothing when there is no such file.
   */
  function LoadDorks(choice: string, typed: string, file: Option<seq<string>>): (dorks: seq<string>)
    ensures choice == "1" ==> dorks == [typed]
    ensures choice != "1" && file.None? ==> dorks == []
    ensures choice != "1" && file.Some? ==> dorks == CleanLines(file.value)
    ensures choice != "1" ==> forall i :: 0 <= i < |dorks| ==> dorks[i] != "" && Strip(dorks[i]) == dorks[i]
  {
    if choice == "1" then [typed]
    else match file
      case None => []
      case Some(lines) =>
        CleanLinesStripped(lines);
        CleanLines(lines)
  }

  /** Where `load_proxies` takes its list from: the cleaned lines of a file, or else the typed text as one proxy. */
  function ProxySource(typed: string, file: Option<seq<string>>): seq<string> {
    match file
    case None => [typed]
    case Some(lines) => CleanLines(lines)
  }

  /**
   * `load_proxies`: without proxies nothing is loaded; a rotating proxy list is
   * taken as it is; any other list keeps only the proxies the probe accepts.
   * `replies[i]` is the probe's reply for the i-th proxy of the list.
   */
  method LoadProxies(useProxies: bool, typed: string, file: Option<seq<string>>, rotating: bool, replies: seq<Option<int>>)
    returns (proxies: seq<string>, isRotating: bool)
    ensures !useProxies ==> proxies == [] && !isRotating
    ensures useProxies ==> isRotating == rotating
    ensures useProxies && rotating ==> proxies == ProxySource(typed, file)
    ensures useProxies && !rotating ==> proxies == Proxies.ValidProxies(ProxySource(typed, file), replies)
    ensures useProxies && !rotating ==> forall i :: 0 <= i < |proxies| ==> Proxies.WellFormed(proxies[i])
  {
    if !useProxies {
      return [], false;
    }
    proxies := ProxySource(typed, file);
    isRotating := rotating;
    if !isRotating {
      var all := proxies;
      proxies := Proxies.ValidateAll(all, replies);
      Proxies.ValidProxiesSpec(all, replies);
    }
  }
}
