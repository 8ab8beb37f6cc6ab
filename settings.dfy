/**
 * The configuration lookup (`func_get_setting`) over the lines of the
 * configuration file: each line loses its trailing CR/LF characters and all
 * of its spaces, and is then unpacked into exactly two parts around `=`.
 */
module Settings {
  import opened Text

  /** The value of the first matching line, `False` (no line matched), or the ValueError of a bad line. */
  datatype Lookup = Value(v: string) | Missing | BadLine

  /** `rstrip("\r\n")` then `replace(" ", "")`: no space is left, and nothing new appears. */
  function Normalize(line: string): (n: string)
    ensures ' ' !in n
    ensures forall c :: c in n ==> c in line
  {
    RemoveChar(RStrip(line, {'\r', '\n'}), ' ')
  }

  /** The pieces a line splits into around `=`; the source unpacks them into key and value. */
  function Fields(line: string): (f: seq<string>)
    ensures |f| >= 1 && forall i :: 0 <= i < |f| ==> '=' !in f[i]
  {
    Split(Normalize(line), '=')
  }

  /** A line the lookup reads past: a well-formed `key=value` line for another key. */
  predicate OtherKey(line: string, key: string)
  {
    |Fields(line)| == 2 && Fields(line)[0] != key
  }

  function GetSetting(lines: seq<string>, key: string): (r: Lookup)
    ensures r.Value? ==> ' ' !in r.v && '=' !in r.v
    decreases |lines|
  {
    if |lines| == 0 then Missing
    else
      var f := Fields(lines[0]);
      if |f| != 2 then BadLine
      else if f[0] == key then (SplitKeepsChars(Normalize(lines[0]), '=', 1); Value(f[1]))
      else GetSetting(lines[1..], key)
  }

  /** The first line whose key matches supplies the value, when every earlier line is well formed. */
  lemma {:induction false} FirstMatchWins(lines: seq<string>, key: string, i: nat)
    requires i < |lines| && |Fields(lines[i])| == 2 && Fields(lines[i])[0] == key
    requires forall j :: 0 <= j < i ==> OtherKey(lines[j], key)
    ensures GetSetting(lines, key) == Value(Fields(lines[i])[1])
    decreases i
  {
    if i > 0 {
      FirstMatchWins(lines[1..], key, i - 1);
    }
  }

  /** Conversely, a value found comes from a matching line preceded only by lines for other keys. */
  lemma {:induction false} FoundAtFirstMatch(lines: seq<string>, key: string)
    requires GetSetting(lines, key).Value?
    ensures exists i :: 0 <= i < |lines| && Fields(lines[i]) == [key, GetSetting(lines, key).v]
                     && (forall j :: 0 <= j < i ==> OtherKey(lines[j], key))
    decreases |lines|
  {
    var f := Fields(lines[0]);
    if f[0] == key {
      assert f == [f[0], f[1]];
    } else {
      FoundAtFirstMatch(lines[1..], key);
      var i :| 0 <= i < |lines[1..]| && Fields(lines[1..][i]) == [key, GetSetting(lines[1..], key).v]
        && forall j :: 0 <= j < i ==> OtherKey(lines[1..][j], key);
      assert Fields(lines[i + 1]) == [key, GetSetting(lines, key).v];
      assert forall j :: 0 < j < i + 1 ==> OtherKey(lines[j], key) by {
        forall j | 0 < j < i + 1 ensures OtherKey(lines[j], key) {
          assert lines[j] == lines[1..][j - 1];
        }
      }
    }
  }

  /** `False` comes back exactly when every line is a well-formed line for another key. */
  lemma {:induction false} MissingIff(lines: seq<string>, key: string)
    ensures GetSetting(lines, key) == Missing <==> forall j :: 0 <= j < |lines| ==> OtherKey(lines[j], key)
    decreases |lines|
  {
    if |lines| > 0 {
      MissingIff(lines[1..], key);
      if OtherKey(lines[0], key) {
        assert forall j :: 0 < j < |lines| ==> lines[j] == lines[1..][j - 1];
      }
    }
  }

  /**
   * A `key = value` line, spaced and ending in CR LF, reads as that key and
   * value, whatever lines follow it.
   */
  lemma SpacedLine(key: string, v: string, rest: seq<string>)
    requires v != ""
    requires ' ' !in key && '=' !in key
    requires ' ' !in v && '=' !in v && '\r' !in v && '\n' !in v
    ensures GetSetting([key + " = " + v + "\r\n"] + rest, key) == Value(v)
  {
    var line := key + " = " + v + "\r\n";
    SpacedLineNormalized(key, v);
    SplitAfterField(key, '=', v);
    SplitSingleField(v, '=');
    assert Fields(line) == [key, v];
    assert ([line] + rest)[0] == line;
  }

  lemma SpacedLineNormalized(key: string, v: string)
    requires v != ""
    requires ' ' !in key && ' ' !in v && '\r' !in v && '\n' !in v
    ensures Normalize(key + " = " + v + "\r\n") == key + ['='] + v
  {
    var line := key + " = " + v + "\r\n";
    assert line == (key + " = " + v) + "\r\n";
    RStripSuffix(key + " = " + v, "\r\n", {'\r', '\n'});
    RemoveCharConcat(key, " = ", ' ');
    RemoveCharConcat(key + " = ", v, ' ');
    assert RemoveChar(" = ", ' ') == "=";
  }
}
