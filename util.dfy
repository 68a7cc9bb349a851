/**
 * Text utilities of the client: the `key = value` configuration parser, the
 * environment/config/default lookup, collision-free output names, and the
 * extraction of a job id from the search service's response.
 */
module Util {
  import opened Wrappers
  import opened Text

  // ---------------------------------------------------------------------------
  // Configuration text: `_parse_kv`
  // ---------------------------------------------------------------------------

  /** The characters at which `str.splitlines()` breaks a line. */
  predicate IsLineBreak(c: char) {
    || c == '\n' || c == '\r' || c == '\U{B}' || c == '\U{C}'
    || c == '\U{1C}' || c == '\U{1D}' || c == '\U{1E}'
    || c == '\U{85}' || c == '\U{2028}' || c == '\U{2029}'
  }

  /**
   * The lines of `text`, broken at every line-break character. `splitlines()`
   * treats "\r\n" as a single break and drops one trailing empty line; the extra
   * lines this split yields are empty, and the parser skips empty lines.
   */
  function SplitLines(text: string): (lines: seq<string>)
    ensures |lines| >= 1
    ensures forall i, j :: 0 <= i < |lines| && 0 <= j < |lines[i]| ==> !IsLineBreak(lines[i][j])
  {
    if text == [] then [""]
    else
      var rest := SplitLines(text[1..]);
      if IsLineBreak(text[0]) then [""] + rest
      else [[text[0]] + rest[0]] + rest[1..]
  }

  /** `text` without its line-break characters. */
  function Unbroken(text: string): string {
    if text == [] then []
    else (if IsLineBreak(text[0]) then [] else [text[0]]) + Unbroken(text[1..])
  }

  function BreakCount(text: string): nat {
    if text == [] then 0
    else (if IsLineBreak(text[0]) then 1 else 0) + BreakCount(text[1..])
  }

  /** The lines written one after another. */
  function Joined(lines: seq<string>): string {
    if lines == [] then [] else lines[0] + Joined(lines[1..])
  }

  /**
   * Nothing but the breaks is lost: the lines, joined, are the text without
   * its line-break characters, and there is one line more than breaks.
   */
  lemma {:induction false} SplitLinesContents(text: string)
    ensures Joined(SplitLines(text)) == Unbroken(text)
    ensures |SplitLines(text)| == 1 + BreakCount(text)
  {
    if text == [] {
      assert Joined([""]) == "" + Joined([]);
    } else {
      var rest := SplitLines(text[1..]);
      SplitLinesContents(text[1..]);
      var lines := SplitLines(text);
      if IsLineBreak(text[0]) {
        assert lines == [""] + rest && lines[1..] == rest;
      } else {
        var first := [text[0]] + rest[0];
        assert lines == [first] + rest[1..] && lines[1..] == rest[1..];
        assert Joined(rest) == rest[0] + Joined(rest[1..]);
      }
    }
  }

  /** The characters the key pattern `[^=:#]+` excludes. */
  predicate IsKvSpecial(c: char) {
    c == '=' || c == ':' || c == '#'
  }

  /** Index of the first `=`, `:` or `#` in `line`, or `|line|` when there is none. */
  function SeparatorIndex(line: string): (p: nat)
    ensures p <= |line|
    ensures forall j :: 0 <= j < p ==> !IsKvSpecial(line[j])
    ensures p < |line| ==> IsKvSpecial(line[p])
  {
    if line == [] then 0
    else if IsKvSpecial(line[0]) then 0
    else 1 + SeparatorIndex(line[1..])
  }

  /**
   * `re.match(r"\s*([^=:#]+)\s*[:=]\s*(.*)\s*$", line)` on a stripped line,
   * with both groups stripped. Group 1 is greedy and cannot cross a separator,
   * so the match exists exactly when the first of `=`, `:`, `#` is not the first
   * character and is `=` or `:`; the key is what precedes it, the value what follows.
   */
  function MatchKv(line: string): Option<(string, string)> {
    var p := SeparatorIndex(line);
    if p == 0 || p == |line| || line[p] == '#' then None
    else Some((Trim(line[..p]), Trim(line[p + 1..])))
  }

  /** A matched key is non-empty, stripped and free of separators; without `=` or `:` there is no match. */
  lemma MatchKvShape(line: string)
    requires line == [] || !IsSpace(line[0])
    ensures MatchKv(line).Some? ==> var key := MatchKv(line).value.0;
      key != [] && Trim(key) == key && forall j :: 0 <= j < |key| ==> !IsKvSpecial(key[j])
    ensures (forall j :: 0 <= j < |line| ==> line[j] != '=' && line[j] != ':') ==> MatchKv(line).None?
  {
    var p := SeparatorIndex(line);
    if 0 < p < |line| && line[p] != '#' {
      var before := line[..p];
      assert before[0] == line[0];
      assert forall j :: 0 <= j < |before| ==> before[j] == line[j];
      StrippedKey(before);
      assert MatchKv(line) == Some((Trim(before), Trim(line[p + 1..])));
    } else {
      assert MatchKv(line).None?;
    }
  }

  /** Stripping text that starts with a visible character and holds no separator gives a non-empty stripped key without separators. */
  lemma StrippedKey(s: string)
    requires s != [] && !IsSpace(s[0])
    requires forall j :: 0 <= j < |s| ==> !IsKvSpecial(s[j])
    ensures var k := Trim(s); k != [] && Trim(k) == k && forall j :: 0 <= j < |k| ==> !IsKvSpecial(k[j])
  {
    TrimKeepsFirst(s);
    TrimIdempotent(s);
    TrimKeepsAll(s, c => !IsKvSpecial(c));
  }

  predicate QuotedBy(v: string, q: char) {
    |v| >= 1 && v[0] == q && v[|v| - 1] == q
  }

  /**
   * `v[1:-1]` when `v` starts and ends with the same kind of quote: exactly the
   * outer pair is removed (a lone quote character becomes empty); else `v`.
   */
  function Unquote(v: string): (r: string)
    ensures (QuotedBy(v, '"') || QuotedBy(v, '\'')) && |v| >= 2 ==> [v[0]] + r + [v[|v| - 1]] == v
    ensures (QuotedBy(v, '"') || QuotedBy(v, '\'')) && |v| == 1 ==> r == []
    ensures !QuotedBy(v, '"') && !QuotedBy(v, '\'') ==> r == v
  {
    if QuotedBy(v, '"') || QuotedBy(v, '\'') then
      if |v| >= 2 then v[1..|v| - 1] else []
    else v
  }

  /** What one line of configuration text contributes: a key and its value, or nothing. */
  function ParseLine(raw: string): Option<(string, string)> {
    EntryOf(Trim(raw))
  }

  /** What a stripped line contributes. */
  function EntryOf(line: string): Option<(string, string)> {
    if line == [] || line[0] == '#' then None
    else
      match MatchKv(line)
      case None => None
      case Some((key, v)) => Some((key, Unquote(v)))
  }

  /**
   * Blank lines, comment lines and lines without a `=` or `:` contribute nothing;
   * a key is non-empty, stripped, and holds none of `=`, `:`, `#`.
   */
  lemma ParseLineShape(raw: string)
    ensures Trim(raw) == [] ==> ParseLine(raw).None?
    ensures Trim(raw) != [] && Trim(raw)[0] == '#' ==> ParseLine(raw).None?
    ensures (forall j :: 0 <= j < |raw| ==> raw[j] != '=' && raw[j] != ':') ==> ParseLine(raw).None?
    ensures ParseLine(raw).Some? ==> var k := ParseLine(raw).value.0;
      k != [] && Trim(k) == k && forall j :: 0 <= j < |k| ==> !IsKvSpecial(k[j])
  {
    var line := Trim(raw);
    EntryOfShape(line);
    if forall j :: 0 <= j < |raw| ==> raw[j] != '=' && raw[j] != ':' {
      TrimChars(raw);
      assert forall j :: 0 <= j < |line| ==> line[j] in raw;
      assert forall j :: 0 <= j < |line| ==> line[j] != '=' && line[j] != ':';
    }
  }

  /** `ParseLineShape` for a line that is already stripped. */
  lemma EntryOfShape(line: string)
    requires line == [] || !IsSpace(line[0])
    ensures line == [] || line[0] == '#' ==> EntryOf(line).None?
    ensures (forall j :: 0 <= j < |line| ==> line[j] != '=' && line[j] != ':') ==> EntryOf(line).None?
    ensures EntryOf(line).Some? ==> var k := EntryOf(line).value.0;
      k != [] && Trim(k) == k && forall j :: 0 <= j < |k| ==> !IsKvSpecial(k[j])
  {
    if line != [] && line[0] != '#' {
      MatchKvShape(line);
    }
  }

  /**
   * A line defines a key exactly when, once stripped, its first `=`, `:` or
   * `#` is a `=` or `:` after at least one character. The key is the stripped
   * text before it; the value is the stripped text after it, with one pair of
   * matching outer quotes removed, so an unquoted value is stripped.
   */
  lemma ParseLineValue(raw: string)
    ensures var line := Trim(raw); var p := SeparatorIndex(line);
      ParseLine(raw).Some? <==> 0 < p < |line| && line[p] != '#'
    ensures var line := Trim(raw); var p := SeparatorIndex(line);
      ParseLine(raw).Some? ==> 0 < p < |line| && ParseLine(raw).value == (Trim(line[..p]), Unquote(Trim(line[p + 1..])))
    ensures var line := Trim(raw); var p := SeparatorIndex(line);
      ParseLine(raw).Some? && p < |line| && !QuotedBy(Trim(line[p + 1..]), '"') && !QuotedBy(Trim(line[p + 1..]), '\'') ==>
        ParseLine(raw).value.1 == Trim(line[p + 1..]) && Trim(ParseLine(raw).value.1) == ParseLine(raw).value.1
  {
    EntryOfValue(Trim(raw));
  }

  /** `ParseLineValue` for a line that is already stripped. */
  lemma EntryOfValue(line: string)
    ensures var p := SeparatorIndex(line); EntryOf(line).Some? <==> 0 < p < |line| && line[p] != '#'
    ensures var p := SeparatorIndex(line);
      EntryOf(line).Some? ==> 0 < p < |line| && EntryOf(line).value == (Trim(line[..p]), Unquote(Trim(line[p + 1..])))
    ensures var p := SeparatorIndex(line);
      EntryOf(line).Some? && p < |line| && !QuotedBy(Trim(line[p + 1..]), '"') && !QuotedBy(Trim(line[p + 1..]), '\'') ==>
        EntryOf(line).value.1 == Trim(line[p + 1..]) && Trim(EntryOf(line).value.1) == EntryOf(line).value.1
  {
    var p := SeparatorIndex(line);
    if line == [] || line[0] == '#' {
      assert p == 0;
      assert EntryOf(line) == None;
    } else {
      EntryOfMatch(line, p);
      if p < |line| {
        TrimIdempotent(line[p + 1..]);
      }
    }
  }

  /** For a line that is neither blank nor a comment, the entry is the unquoted regular-expression match. */
  lemma EntryOfMatch(line: string, p: nat)
    requires line != [] && line[0] != '#' && p == SeparatorIndex(line)
    ensures EntryOf(line).Some? <==> 0 < p < |line| && line[p] != '#'
    ensures EntryOf(line).Some? ==> 0 < p < |line| && EntryOf(line).value == (Trim(line[..p]), Unquote(Trim(line[p + 1..])))
  {
    var m := MatchKv(line);
    assert EntryOf(line) == if m.None? then None else Some((m.value.0, Unquote(m.value.1)));
  }

  /** `out[k] = v` for a line that defines `k`; nothing for any other line. */
  function Store(out: map<string, string>, entry: Option<(string, string)>): map<string, string> {
    if entry.Some? then out[entry.value.0 := entry.value.1] else out
  }

  /** The dictionary built by storing `entries` one after another. */
  function FoldStore(entries: seq<Option<(string, string)>>): map<string, string> {
    if entries == [] then map[]
    else Store(FoldStore(entries[..|entries| - 1]), entries[|entries| - 1])
  }

  function ParsedLines(lines: seq<string>): (es: seq<Option<(string, string)>>)
    ensures |es| == |lines| && forall j :: 0 <= j < |lines| ==> es[j] == ParseLine(lines[j])
  {
    seq(|lines|, j requires 0 <= j < |lines| => ParseLine(lines[j]))
  }

  /** The dictionary `_parse_kv` builds from `lines`. */
  function KvOf(lines: seq<string>): map<string, string> {
    FoldStore(ParsedLines(lines))
  }

  /** `_parse_kv(text)`. */
  method ParseKv(text: string) returns (out: map<string, string>)
    ensures out == KvOf(SplitLines(text))
  {
    var lines := SplitLines(text);
    ghost var es := ParsedLines(lines);
    out := map[];
    for i := 0 to |lines|
      invariant out == FoldStore(es[..i])
    {
      assert es[..i + 1][..i] == es[..i];
      assert FoldStore(es[..i + 1]) == Store(out, ParseLine(lines[i]));
      var line := Trim(lines[i]);
      if line != [] && line[0] != '#' {
        var m := MatchKv(line);
        if m.Some? {
          var (k, v) := m.value;
          v := Unquote(v);
          out := out[k := v];
        }
      }
    }
    assert es[..|lines|] == es;
  }

  lemma {:induction false} FoldKeyFromSomeEntry(es: seq<Option<(string, string)>>, k: string)
    requires k in FoldStore(es)
    ensures exists i :: 0 <= i < |es| && es[i].Some? && es[i].value.0 == k
  {
    var last := |es| - 1;
    var prefix := es[..last];
    if !(es[last].Some? && es[last].value.0 == k) {
      FoldKeyFromSomeEntry(prefix, k);
      var i :| 0 <= i < |prefix| && prefix[i].Some? && prefix[i].value.0 == k;
      assert prefix[i] == es[i];
    }
  }

  lemma {:induction false} FoldLastEntryWins(es: seq<Option<(string, string)>>, i: nat, k: string, v: string)
    requires i < |es| && es[i] == Some((k, v))
    requires forall j :: i < j < |es| ==> es[j].None? || es[j].value.0 != k
    ensures k in FoldStore(es) && FoldStore(es)[k] == v
  {
    var last := |es| - 1;
    var prefix := es[..last];
    if i < last {
      assert forall j :: i < j < |prefix| ==> prefix[j] == es[j];
      FoldLastEntryWins(prefix, i, k, v);
    }
  }

  /** A key is present exactly when some line defines it... */
  lemma KvKeyFromSomeLine(lines: seq<string>, k: string)
    requires k in KvOf(lines)
    ensures exists i :: 0 <= i < |lines| && ParseLine(lines[i]).Some? && ParseLine(lines[i]).value.0 == k
  {
    FoldKeyFromSomeEntry(ParsedLines(lines), k);
  }

  /** ...and its value is the one given by the last line that defines it. */
  lemma KvLastDefinitionWins(lines: seq<string>, i: nat, k: string, v: string)
    requires i < |lines| && ParseLine(lines[i]) == Some((k, v))
    requires forall j :: i < j < |lines| ==> ParseLine(lines[j]).None? || ParseLine(lines[j]).value.0 != k
    ensures k in KvOf(lines) && KvOf(lines)[k] == v
  {
    FoldLastEntryWins(ParsedLines(lines), i, k, v);
  }

  /** Every parsed key is non-empty, stripped, and free of `=`, `:` and `#`. */
  lemma KvKeysWellFormed(lines: seq<string>, k: string)
    requires k in KvOf(lines)
    ensures k != [] && Trim(k) == k
    ensures forall j :: 0 <= j < |k| ==> !IsKvSpecial(k[j])
  {
    KvKeyFromSomeLine(lines, k);
    var i :| 0 <= i < |lines| && ParseLine(lines[i]).Some? && ParseLine(lines[i]).value.0 == k;
    ParseLineShape(lines[i]);
  }

  // ---------------------------------------------------------------------------
  // `config_get`
  // ---------------------------------------------------------------------------

  /**
   * `os.getenv(key, config.get(key, default)).strip()`: a variable that is set
   * (even to the empty string) wins over the configuration file, which wins
   * over the default; the result is stripped.
   */
  function ConfigGet(env: map<string, string>, config: map<string, string>, key: string, default: string): (r: string)
    ensures key in env ==> r == Trim(env[key])
    ensures key !in env && key in config ==> r == Trim(config[key])
    ensures key !in env && key !in config ==> r == Trim(default)
    ensures Trim(r) == r
  {
    var raw := if key in env then env[key] else if key in config then config[key] else default;
    TrimIdempotent(raw);
    Trim(raw)
  }

  /** With the variable unset, the value comes from the last line of the file defining the key. */
  lemma ConfigGetFromFile(env: map<string, string>, lines: seq<string>, i: nat, key: string, v: string, default: string)
    requires key !in env
    requires i < |lines| && ParseLine(lines[i]) == Some((key, v))
    requires forall j :: i < j < |lines| ==> ParseLine(lines[j]).None? || ParseLine(lines[j]).value.0 != key
    ensures ConfigGet(env, KvOf(lines), key, default) == Trim(v)
  {
    KvLastDefinitionWins(lines, i, key, v);
  }

  // ---------------------------------------------------------------------------
  // `unique_filename`: the folder is modelled by the set of paths that exist
  // ---------------------------------------------------------------------------

  datatype FilePath = FilePath(folder: string, name: string)

  /** `name.rfind('.')`. */
  function LastDot(name: string): (i: int)
    ensures -1 <= i < |name|
    ensures i >= 0 ==> name[i] == '.'
    ensures forall j :: i < j < |name| ==> name[j] != '.'
  {
    if name == [] then -1
    else if name[|name| - 1] == '.' then |name| - 1
    else LastDot(name[..|name| - 1])
  }

  /** `pathlib` sees an extension when the last dot is neither first nor last. */
  predicate HasSuffix(name: string) {
    0 < LastDot(name) < |name| - 1
  }

  /** `PurePath.suffix`. */
  function Suffix(name: string): string {
    if HasSuffix(name) then name[LastDot(name)..] else ""
  }

  /** `PurePath.stem`. */
  function Stem(name: string): string {
    if HasSuffix(name) then name[..LastDot(name)] else name
  }

  /** `folder / f"{stem}({i}){ext}"`. */
  function Candidate(p: FilePath, i: nat): FilePath {
    FilePath(p.folder, Stem(p.name) + "(" + NatToString(i) + ")" + Suffix(p.name))
  }

  lemma StemAndSuffix(name: string)
    ensures Stem(name) + Suffix(name) == name
  {
  }

  /** Every numbered candidate is longer than the original name, so differs from it. */
  lemma CandidateDiffers(p: FilePath, i: nat)
    ensures Candidate(p, i) != p
  {
    StemAndSuffix(p.name);
    assert |Candidate(p, i).name| == |p.name| + |NatToString(i)| + 2;
  }

  /** Same-length middles of equal strings with equal ends are equal. */
  lemma MiddleUnique(pre: string, a: string, b: string, post: string)
    requires pre + a + post == pre + b + post
    ensures a == b
  {
    assert |a| == |b|;
    var tail := (pre + a + post)[|pre|..];
    assert tail == a + post && tail == b + post;
    assert a == tail[..|a|] == b;
  }

  /** Different counters give different candidates. */
  lemma CandidateInjective(p: FilePath, i: nat, j: nat)
    requires Candidate(p, i) == Candidate(p, j)
    ensures i == j
  {
    var pre, post := Stem(p.name) + "(", ")" + Suffix(p.name);
    assert Candidate(p, i).name == pre + NatToString(i) + post;
    assert Candidate(p, j).name == pre + NatToString(j) + post;
    MiddleUnique(pre, NatToString(i), NatToString(j), post);
    NatToStringInjective(i, j);
  }

  /** A numbered candidate keeps the extension of a name that has one. */
  lemma CandidateKeepsSuffix(p: FilePath, i: nat)
    requires Suffix(p.name) != ""
    ensures Suffix(Candidate(p, i).name) == Suffix(p.name)
  {
    var ext := Suffix(p.name);
    var x := Stem(p.name) + "(" + NatToString(i) + ")";
    var c := x + ext;
    assert Candidate(p, i).name == c;
    var L := LastDot(p.name);
    assert ext == p.name[L..] && ext[0] == '.' && |ext| >= 2;
    assert forall j :: 0 < j < |ext| ==> ext[j] != '.' by {
      forall j | 0 < j < |ext| ensures ext[j] != '.' {
        assert ext[j] == p.name[L + j];
      }
    }
    assert c[|x|] == '.';
    assert forall j :: |x| < j < |c| ==> c[j] != '.' by {
      forall j | |x| < j < |c| ensures c[j] != '.' {
        assert c[j] == ext[j - |x|];
      }
    }
    var d := LastDot(c);
    assert d == |x|;
    assert c[d..] == ext;
  }

  /** The `i`-th candidate is neither the path itself nor any earlier candidate. */
  lemma CandidateUntried(p: FilePath, i: nat, tried: set<FilePath>)
    requires i >= 1
    requires forall x :: x in tried ==> x == p || exists j :: 1 <= j < i && x == Candidate(p, j)
    ensures Candidate(p, i) !in tried
  {
    forall x | x in tried ensures x != Candidate(p, i) {
      if x == p {
        CandidateDiffers(p, i);
      } else {
        var j :| 1 <= j < i && x == Candidate(p, j);
        if x == Candidate(p, i) {
          CandidateInjective(p, j, i);
        }
      }
    }
  }

  /**
   * `unique_filename(p)`: `p` itself when it does not exist, otherwise
   * `stem(i)ext` in the same folder for the smallest `i >= 1` that does not exist.
   */
  method UniqueFilename(p: FilePath, existing: set<FilePath>) returns (r: FilePath)
    ensures r !in existing
    ensures r.folder == p.folder
    ensures p !in existing ==> r == p
    ensures p in existing ==>
      exists i :: i >= 1 && r == Candidate(p, i) && forall j :: 1 <= j < i ==> Candidate(p, j) in existing
    ensures Suffix(p.name) != "" ==> Suffix(r.name) == Suffix(p.name)
  {
    var candidate := p;
    var i: nat := 1;
    ghost var tried: set<FilePath> := {};
    while candidate in existing
      invariant i >= 1
      invariant candidate == if i == 1 then p else Candidate(p, i - 1)
      invariant i > 1 ==> p in existing
      invariant forall j :: 1 <= j < i - 1 ==> Candidate(p, j) in existing
      invariant tried <= existing
      invariant forall x :: x in tried ==> x == p || exists j :: 1 <= j < i - 1 && x == Candidate(p, j)
      invariant i == 1 ==> tried == {}
      invariant candidate !in tried
      decreases existing - tried
    {
      tried := tried + {candidate};
      candidate := Candidate(p, i);
      CandidateUntried(p, i, tried);
      i := i + 1;
    }
    r := candidate;
    if i > 1 {
      assert r == Candidate(p, i - 1);
      if Suffix(p.name) != "" {
        CandidateKeepsSuffix(p, i - 1);
      }
    }
  }

  // ---------------------------------------------------------------------------
  // Job id: `JOBID_RE = (?<!\d)(\d{13,20})(?!\d)` and `extract_job_id_from_response`
  // ---------------------------------------------------------------------------

  /** End of the run of digits that starts at `i`. */
  function RunEnd(s: string, i: nat): (e: nat)
    requires i <= |s|
    ensures i <= e <= |s|
    ensures forall k :: i <= k < e ==> IsDigit(s[k])
    ensures e == |s| || !IsDigit(s[e])
    decreases |s| - i
  {
    if i < |s| && IsDigit(s[i]) then RunEnd(s, i + 1) else i
  }

  /** `JOBID_RE` matches `s[i..j]`: 13 to 20 digits with no digit just before or just after. */
  predicate JobIdAt(s: string, i: int, j: int) {
    && 0 <= i <= j <= |s|
    && 13 <= j - i <= 20
    && (forall k :: i <= k < j ==> IsDigit(s[k]))
    && (i == 0 || !IsDigit(s[i - 1]))
    && (j == |s| || !IsDigit(s[j]))
  }

  lemma JobIdAtIsRun(s: string, i: nat, j: int)
    requires JobIdAt(s, i, j)
    ensures j == RunEnd(s, i)
  {
  }

  /** Leftmost match starting at or after `i`, where `i` is not inside a run of digits. */
  function SearchFrom(s: string, i: nat): (r: Option<(nat, nat)>)
    requires i <= |s|
    requires i == 0 || !IsDigit(s[i - 1])
    ensures r.Some? ==> i <= r.value.0 && JobIdAt(s, r.value.0, r.value.1)
    ensures r.Some? ==> forall a, b :: i <= a < r.value.0 ==> !JobIdAt(s, a, b)
    ensures r.None? ==> forall a, b :: i <= a ==> !JobIdAt(s, a, b)
    decreases |s| - i
  {
    if i == |s| then None
    else if !IsDigit(s[i]) then
      var r := SearchFrom(s, i + 1);
      assert forall b :: !JobIdAt(s, i, b);
      r
    else
      var e := RunEnd(s, i);
      if 13 <= e - i <= 20 then Some((i, e))
      else
        assert forall b :: !JobIdAt(s, i, b) by {
          forall b | JobIdAt(s, i, b) ensures false { JobIdAtIsRun(s, i, b); }
        }
        assert forall a, b :: i < a <= e && a < |s| ==> !JobIdAt(s, a, b);
        if e == |s| then None
        else
          var r := SearchFrom(s, e + 1);
          r
  }

  /** `JOBID_RE.search(s)`: the position of the leftmost match, if any. */
  function SearchJobId(s: string): (r: Option<(nat, nat)>)
    ensures r.Some? ==> JobIdAt(s, r.value.0, r.value.1)
    ensures r.Some? ==> forall a, b :: a < r.value.0 ==> !JobIdAt(s, a, b)
    ensures r.None? ==> forall a, b :: !JobIdAt(s, a, b)
  {
    SearchFrom(s, 0)
  }

  /** `m.group(1)` of that search. */
  function JobIdMatch(s: string): Option<string> {
    match SearchJobId(s)
    case Some((i, j)) => Some(s[i..j])
    case None => None
  }

  /** The values a decoded JSON object may hold, as far as the extraction cares. */
  datatype JsonValue = JStr(s: string) | JInt(i: int) | JBool(b: bool) | JNull | JOther

  /** `isinstance(v, (str, int))`; a Python `bool` is an `int`. */
  predicate IsStrOrInt(v: JsonValue) {
    v.JStr? || v.JInt? || v.JBool?
  }

  /** `str(v)` for those values. */
  function PyStr(v: JsonValue): string
    requires IsStrOrInt(v)
  {
    match v
    case JStr(s) => s
    case JInt(i) => IntToString(i)
    case JBool(b) => if b then "True" else "False"
  }

  const JobIdKeys: seq<string> := ["jobId", "job_id", "id", "resultId", "result_id"]

  /** The value of the first key of `keys` that the object holds as a string or an integer. */
  function JsonJobId(obj: map<string, JsonValue>, keys: seq<string>): (r: Option<string>)
    ensures r.Some? ==> exists t :: (0 <= t < |keys| && keys[t] in obj && IsStrOrInt(obj[keys[t]])
      && r.value == PyStr(obj[keys[t]])
      && forall u :: 0 <= u < t ==> keys[u] !in obj || !IsStrOrInt(obj[keys[u]]))
    ensures r.None? ==> forall u :: 0 <= u < |keys| ==> keys[u] !in obj || !IsStrOrInt(obj[keys[u]])
  {
    if keys == [] then None
    else if keys[0] in obj && IsStrOrInt(obj[keys[0]]) then
      Some(PyStr(obj[keys[0]]))
    else
      var r := JsonJobId(obj, keys[1..]);
      if r.Some? then
        var t :| 0 <= t < |keys[1..]| && keys[1..][t] in obj && IsStrOrInt(obj[keys[1..][t]])
          && r.value == PyStr(obj[keys[1..][t]])
          && forall u :: 0 <= u < t ==> keys[1..][u] !in obj || !IsStrOrInt(obj[keys[1..][u]]);
        assert forall u :: 0 <= u < t + 1 ==> keys[u] !in obj || !IsStrOrInt(obj[keys[u]]) by {
          forall u | 0 <= u < t + 1 ensures keys[u] !in obj || !IsStrOrInt(obj[keys[u]]) {
            if u > 0 { assert keys[u] == keys[1..][u - 1]; }
          }
        }
        assert keys[t + 1] == keys[1..][t];
        r
      else
        r
  }

  /**
   * An HTTP response: its headers, its body decoded as a JSON object (`None`
   * when it is not one or does not decode), and its body text. Header names
   * are case-insensitive in `requests` and `httpx`, so `headers` is keyed by
   * the lower-cased name.
   */
  datatype Response = Response(headers: map<string, string>, json: Option<map<string, JsonValue>>, text: string)

  /** `headers.get(name) or ""`, looked up without regard to case. */
  function HeaderOr(h: map<string, string>, name: string): string {
    var key := Lower(name);
    if key in h then h[key] else ""
  }

  /** Spellings that differ only in case find the same header. */
  lemma HeaderCaseInsensitive(h: map<string, string>, a: string, b: string)
    requires Lower(a) == Lower(b)
    ensures HeaderOr(h, a) == HeaderOr(h, b)
  {
  }

  /** `headers.get("Location") or headers.get("location")`, with `None` read as "". */
  function LocationOf(h: map<string, string>): (loc: string)
    ensures loc == HeaderOr(h, "location")
  {
    HeaderCaseInsensitive(h, "Location", "location");
    if HeaderOr(h, "Location") != "" then HeaderOr(h, "Location") else HeaderOr(h, "location")
  }

  datatype JobIdError = CouldNotExtractJobId

  /** First tier: a match in a non-empty Location header. */
  function FromLocation(resp: Response): Option<string> {
    var loc := LocationOf(resp.headers);
    if loc != "" then JobIdMatch(loc) else None
  }

  /** Second tier: the JSON keys, only when the content type mentions json. */
  function FromJson(resp: Response): Option<string> {
    var ct := Lower(HeaderOr(resp.headers, "content-type"));
    if Contains(ct, "json") && resp.json.Some? then JsonJobId(resp.json.value, JobIdKeys) else None
  }

  /** `extract_job_id_from_response`. */
  function ExtractJobId(resp: Response): (r: Result<string, JobIdError>)
    ensures FromLocation(resp).Some? ==> r == Success(FromLocation(resp).value)
    ensures FromLocation(resp).None? && FromJson(resp).Some? ==> r == Success(FromJson(resp).value)
    ensures FromLocation(resp).None? && FromJson(resp).None? && JobIdMatch(resp.text).Some? ==>
      r == Success(JobIdMatch(resp.text).value)
    ensures r.Failure? <==> FromLocation(resp).None? && FromJson(resp).None? && JobIdMatch(resp.text).None?
  {
    match FromLocation(resp)
    case Some(id) => Success(id)
    case None =>
      match FromJson(resp)
      case Some(id) => Success(id)
      case None =>
        match JobIdMatch(resp.text)
        case Some(id) => Success(id)
        case None => Failure(CouldNotExtractJobId)
  }

  /** An id that does not come from the JSON tier is 13 to 20 digits that no other
      digit touches in the header or body it was found in. */
  lemma ExtractedIdIsDigitRun(resp: Response)
    requires FromJson(resp).None?
    requires ExtractJobId(resp).Success?
    ensures 13 <= |ExtractJobId(resp).value| <= 20
    ensures forall k :: 0 <= k < |ExtractJobId(resp).value| ==> IsDigit(ExtractJobId(resp).value[k])
  {
    var s := if FromLocation(resp).Some? then LocationOf(resp.headers) else resp.text;
    var m := SearchJobId(s);
    assert m.Some?;
    var (i, j) := m.value;
    assert ExtractJobId(resp).value == s[i..j];
  }

  /** A JSON reply is recognised whatever the case of its `Content-Type` header's name and value. */
  lemma JsonContentTypeAnyCase(h: map<string, string>, obj: map<string, JsonValue>, text: string)
    requires "content-type" in h && h["content-type"] == "Application/JSON"
    requires "location" !in h
    requires obj == map["jobId" := JStr("123")]
    ensures ExtractJobId(Response(h, Some(obj), text)) == Success("123")
  {
    var ct := Lower(HeaderOr(h, "content-type"));
    assert Lower("content-type") == "content-type";
    assert Lower("location") == "location";
    assert ct == "application/json";
    assert OccursAt(ct, "json", 12);
    assert JobIdKeys[0] == "jobId";
  }

  /** The Location header takes priority: whatever the body says, an id found there is returned. */
  lemma LocationHasPriority(resp: Response, json: Option<map<string, JsonValue>>, text: string)
    requires FromLocation(resp).Some?
    ensures ExtractJobId(Response(resp.headers, json, text)) == ExtractJobId(resp)
  {
  }
}
