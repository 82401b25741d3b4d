/** The `key=value;` parameter strings of system/audio_bluetooth_hw: the parser of utils.cc and the
    printer of stream_apis.cc. */
module AudioParams {
  /** Cuts a string at every occurrence of a character; n occurrences give n + 1 pieces. */
  function Split(s: string, d: char): (pieces: seq<string>)
    ensures |pieces| > 0
  {
    if s == [] then [[]]
    else
      Before(s[0], d, Split(s[1..], d))
  }

  /** One more character before the first piece, or a new piece if it is the separator. */
  function Before(c: char, d: char, pieces: seq<string>): (r: seq<string>)
    requires |pieces| > 0
    ensures |r| > 0
  {
    if c == d then [[]] + pieces else [[c] + pieces[0]] + pieces[1..]
  }

  /** One segment read into the map: the piece before the first '=' is the key, the piece up to the
      second the value; empty segments and empty keys are skipped. */
  function Read(m: map<string, string>, segment: string): map<string, string> {
    var kv := Split(segment, '=');
    if segment == [] || kv[0] == [] then m
    else m[kv[0] := if |kv| > 1 then kv[1] else []]
  }

  function ReadAll(segments: seq<string>): map<string, string> {
    if segments == [] then map[] else Read(ReadAll(segments[..|segments| - 1]), segments[|segments| - 1])
  }

  function Parse(params: string): map<string, string> {
    ReadAll(Split(params, ';'))
  }

  method ParseAudioParams(params: string) returns (m: map<string, string>)
    ensures m == Parse(params)
  {
    var segments := Split(params, ';');
    m := map[];
    for i := 0 to |segments|
      invariant m == ReadAll(segments[..i])
    {
      var segment := segments[i];
      assert segments[..i + 1][..i] == segments[..i];
      if |segment| == 0 {
        continue;
      }
      var kv := Split(segment, '=');
      if |kv[0]| == 0 {
        continue;
      }
      m := m[kv[0] := if |kv| > 1 then kv[1] else []];
    }
    assert segments[..|segments|] == segments;
  }

  datatype Param = Param(key: string, value: string)

  function Show(p: Param): string {
    p.key + "=" + p.value + ";"
  }

  function Print(ps: seq<Param>): string {
    if ps == [] then [] else Print(ps[..|ps| - 1]) + Show(ps[|ps| - 1])
  }

  /** `ps` are the entries of the map in whatever order it yields them. */
  method PrintParams(ps: seq<Param>) returns (result: string)
    ensures result == Print(ps)
  {
    result := [];
    for i := 0 to |ps|
      invariant result == Print(ps[..i])
    {
      assert ps[..i + 1][..i] == ps[..i];
      result := result + (ps[i].key + "=" + ps[i].value + ";");
    }
    assert ps[..|ps|] == ps;
  }

  // --- splitting ---

  lemma BeforeConcat(c: char, d: char, a: seq<string>, b: seq<string>)
    requires |a| > 0
    ensures Before(c, d, a + b) == Before(c, d, a) + b
  {
    if c == d {
      assert [[]] + (a + b) == [[]] + a + b;
    } else {
      assert (a + b)[1..] == a[1..] + b;
    }
  }

  lemma {:induction false} SplitConcat(a: string, b: string, d: char)
    ensures Split(a + [d] + b, d) == Split(a, d) + Split(b, d)
  {
    if a == [] {
      assert (a + [d] + b)[1..] == b;
    } else {
      SplitConcat(a[1..], b, d);
      assert (a + [d] + b)[1..] == a[1..] + [d] + b;
      BeforeConcat(a[0], d, Split(a[1..], d), Split(b, d));
    }
  }

  lemma {:induction false} SplitNone(s: string, d: char)
    requires d !in s
    ensures Split(s, d) == [s]
  {
    if s != [] {
      SplitNone(s[1..], d);
      assert [s[0]] + s[1..] == s;
    }
  }

  /** No piece holds the separator, and a character in a piece was in the string. */
  lemma {:induction false} SplitPieces(s: string, d: char, i: nat)
    requires i < |Split(s, d)|
    ensures d !in Split(s, d)[i] && forall c :: c in Split(s, d)[i] ==> c in s
  {
    if s != [] {
      var rest := Split(s[1..], d);
      if i > 0 {
        SplitPieces(s[1..], d, if s[0] == d then i - 1 else i);
      } else if s[0] != d {
        SplitPieces(s[1..], d, 0);
      }
    }
  }

  // --- parsing a concatenation ---

  lemma ReadOverrides(m: map<string, string>, segments: seq<string>, segment: string)
    ensures m + Read(ReadAll(segments), segment) == Read(m + ReadAll(segments), segment)
  {
  }

  lemma {:induction false} ReadAllConcat(a: seq<string>, b: seq<string>)
    ensures ReadAll(a + b) == ReadAll(a) + ReadAll(b)
  {
    if b == [] {
      assert a + b == a;
    } else {
      var n := |b| - 1;
      ReadAllConcat(a, b[..n]);
      assert (a + b)[..|a + b| - 1] == a + b[..n];
      ReadOverrides(ReadAll(a), b[..n], b[n]);
    }
  }

  /** Parsing two strings joined by ';' is the first parse overridden by the second. */
  lemma ParseConcat(a: string, b: string)
    ensures Parse(a + ";" + b) == Parse(a) + Parse(b)
  {
    SplitConcat(a, b, ';');
    ReadAllConcat(Split(a, ';'), Split(b, ';'));
  }

  // --- parsing undoes printing ---

  predicate Clean(p: Param) {
    p.key != [] && ';' !in p.key && '=' !in p.key && ';' !in p.value && '=' !in p.value
  }

  ghost predicate UniqueKeys(ps: seq<Param>) {
    forall i, j :: 0 <= i < j < |ps| ==> ps[i].key != ps[j].key
  }

  function AsMap(ps: seq<Param>): map<string, string> {
    if ps == [] then map[] else AsMap(ps[..|ps| - 1])[ps[|ps| - 1].key := ps[|ps| - 1].value]
  }

  lemma ParseOne(p: Param)
    requires Clean(p)
    ensures Parse(p.key + "=" + p.value) == map[p.key := p.value]
  {
    var segment := p.key + "=" + p.value;
    SplitNone(segment, ';');
    SplitConcat(p.key, p.value, '=');
    SplitNone(p.key, '=');
    SplitNone(p.value, '=');
    assert ReadAll([segment]) == Read(ReadAll([]), segment);
  }

  /** A setting at the end of a string overrides what comes before. */
  lemma LastSetting(s: string, p: Param)
    requires Clean(p)
    ensures Parse(s + ";" + (p.key + "=" + p.value)) == Parse(s)[p.key := p.value]
  {
    ParseConcat(s, p.key + "=" + p.value);
    ParseOne(p);
  }

  lemma ParseSegment(segment: string)
    requires ';' !in segment
    ensures Parse(segment) == Read(map[], segment)
  {
    SplitNone(segment, ';');
    assert ReadAll([segment]) == Read(ReadAll([]), segment);
  }

  /** A segment without '=' is a key with an empty value; of a segment with several only the piece between the
      first two is the value; one that begins with '=' is skipped. */
  lemma OddSegments(key: string, value: string, rest: string)
    requires Clean(Param(key, value)) && ';' !in rest
    ensures Parse(key) == map[key := ""]
    ensures Parse(key + "=" + value + "=" + rest) == map[key := value]
    ensures Parse("=" + rest) == map[]
  {
    ParseSegment(key);
    SplitNone(key, '=');
    var many := key + "=" + value + "=" + rest;
    ParseSegment(many);
    SplitConcat(key + "=" + value, rest, '=');
    SplitConcat(key, value, '=');
    SplitNone(value, '=');
    assert Split(many, '=') == [key, value] + Split(rest, '=');
    ParseSegment("=" + rest);
    SplitConcat("", rest, '=');
    assert "" + "=" + rest == "=" + rest;
  }

  lemma ParseEmpty()
    ensures Parse("") == map[]
  {
    assert ReadAll([[]]) == Read(ReadAll([]), []);
  }

  /** A printed string is empty or ends in ';', so what follows is parsed on its own. */
  lemma ParseAfterPrint(ps: seq<Param>, s: string)
    ensures Parse(Print(ps) + s + ";") == Parse(Print(ps)) + Parse(s)
  {
    var x := Print(ps);
    ParseEmpty();
    ParseConcat(x + s, "");
    assert x + s + ";" + "" == x + s + ";";
    if ps == [] {
      assert x + s == s;
    } else {
      var y := x[..|x| - 1];
      assert x == y + ";";
      ParseConcat(y, s);
      ParseConcat(y, "");
      assert y + ";" + s == x + s && y + ";" + "" == x;
    }
  }

  lemma {:induction false} ParsePrint(ps: seq<Param>)
    requires forall i :: 0 <= i < |ps| ==> Clean(ps[i])
    ensures Parse(Print(ps)) == AsMap(ps)
  {
    if ps == [] {
      ParseEmpty();
    } else {
      var before, p := ps[..|ps| - 1], ps[|ps| - 1];
      ParsePrint(before);
      ParseOne(p);
      ParseAfterPrint(before, p.key + "=" + p.value);
      assert Print(before) + Show(p) == Print(before) + (p.key + "=" + p.value) + ";";
    }
  }

  lemma {:induction false} ReadAllClean(segments: seq<string>, k: string)
    requires forall i :: 0 <= i < |segments| ==> ';' !in segments[i]
    requires k in ReadAll(segments)
    ensures Clean(Param(k, ReadAll(segments)[k]))
  {
    var n := |segments| - 1;
    var kv := Split(segments[n], '=');
    SplitPieces(segments[n], '=', 0);
    if |kv| > 1 {
      SplitPieces(segments[n], '=', 1);
    }
    if segments[n] == [] || kv[0] == [] || kv[0] != k {
      ReadAllClean(segments[..n], k);
    }
  }

  /** Whatever the string, the parser yields only non-empty keys, and no separator in key or value. */
  lemma ParseClean(s: string, k: string)
    requires k in Parse(s)
    ensures Clean(Param(k, Parse(s)[k]))
  {
    var segments := Split(s, ';');
    forall i | 0 <= i < |segments| ensures ';' !in segments[i] {
      SplitPieces(s, ';', i);
    }
    ReadAllClean(segments, k);
  }

  lemma {:induction false} AsMapAt(ps: seq<Param>, i: nat)
    requires UniqueKeys(ps) && i < |ps|
    ensures ps[i].key in AsMap(ps) && AsMap(ps)[ps[i].key] == ps[i].value
  {
    if i < |ps| - 1 {
      AsMapAt(ps[..|ps| - 1], i);
    }
  }

  /** Parsing undoes printing, in whatever order the entries are printed, exactly when all keys are
      non-empty and no key or value holds a separator. */
  lemma RoundTrip(ps: seq<Param>)
    requires UniqueKeys(ps)
    ensures Parse(Print(ps)) == AsMap(ps) <==> forall i :: 0 <= i < |ps| ==> Clean(ps[i])
  {
    if Parse(Print(ps)) == AsMap(ps) {
      forall i | 0 <= i < |ps| ensures Clean(ps[i]) {
        AsMapAt(ps, i);
        ParseClean(Print(ps), ps[i].key);
      }
    }
    if forall i :: 0 <= i < |ps| ==> Clean(ps[i]) {
      ParsePrint(ps);
    }
  }

  /** A separator in a value breaks it. */
  lemma RoundTripCanFail()
    ensures var ps := [Param("k", "a=b")]; UniqueKeys(ps) && Parse(Print(ps)) != AsMap(ps)
  {
    var ps := [Param("k", "a=b")];
    RoundTrip(ps);
    assert ps[0].value[1] == '=' && !Clean(ps[0]);
  }

  /** Printing what was parsed, in any order, and parsing again changes nothing, whatever the string. */
  lemma Reprint(s: string, ps: seq<Param>)
    requires UniqueKeys(ps) && AsMap(ps) == Parse(s)
    ensures Parse(Print(ps)) == Parse(s)
  {
    forall i | 0 <= i < |ps| ensures Clean(ps[i]) {
      AsMapAt(ps, i);
      ParseClean(s, ps[i].key);
    }
    ParsePrint(ps);
  }
}
