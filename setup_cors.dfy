/**
 * The CORS setup script: which origins each answer to its menu yields,
 * and how it updates the lines of the `.env` file so that
 * `ALLOWED_ORIGINS`, `ALLOWED_METHODS` and `ALLOWED_HEADERS` are set.
 *
 * The two answers typed at the prompts are parameters, already stripped as
 * `input().strip()` returns them; the URL check is an abstract predicate.
 * The file is its text, empty when it does not exist. Opened in text
 * mode, it is read with universal newlines (`\r\n` and a lone `\r` become
 * `\n`); `readlines` cuts the result after each newline (a last line may
 * lack one) and `writelines` concatenates the lines back, so the update is
 * stated on the list of lines and then on the text.
 */
module SetupCors {
  import opened Wrappers
  import Text

  const LocalOrigin: string := "http://localhost:8501"
  const LoopbackOrigin: string := "http://127.0.0.1:8501"
  const LocalOrigins: seq<string> := [LocalOrigin, LoopbackOrigin]

  const OriginsKey: string := "ALLOWED_ORIGINS="
  const MethodsKey: string := "ALLOWED_METHODS="
  const HeadersKey: string := "ALLOWED_HEADERS="
  const MethodsLine: string := "ALLOWED_METHODS=GET,POST,DELETE\n"
  const HeadersLine: string := "ALLOWED_HEADERS=Content-Type,Authorization\n"

  // ---- Origins -----------------------------------------------------------------------

  /** The stripped forms of the first `n` typed pieces that pass the URL check, in input order. */
  function Kept(pieces: seq<string>, n: nat, validUrl: string -> bool): seq<string>
    requires n <= |pieces|
  {
    if n == 0 then []
    else
      var domain := Text.Strip(pieces[n - 1]);
      Kept(pieces, n - 1, validUrl) + if validUrl(domain) then [domain] else []
  }

  /** The domains typed at the prompt that are kept: none for a blank answer. */
  function Domains(typed: string, validUrl: string -> bool): seq<string> {
    if typed == [] then []
    else
      var pieces := Text.Split(typed, ',');
      Kept(pieces, |pieces|, validUrl)
  }

  /** The origins each menu choice yields. */
  function Origins(choice: string, typed: string, validUrl: string -> bool): seq<string> {
    if choice == "1" then LocalOrigins
    else if choice == "2" then
      var domains := Domains(typed, validUrl);
      if domains == [] then [LocalOrigin] else domains
    else if choice == "3" then LocalOrigins + Domains(typed, validUrl)
    else [LocalOrigin]
  }

  /** A domain is kept iff it is among the first `n` typed and passes the check. */
  lemma {:induction false} KeptExactly(pieces: seq<string>, n: nat, validUrl: string -> bool, x: string)
    requires n <= |pieces|
    ensures x in Kept(pieces, n, validUrl) <==> validUrl(x) && exists k :: 0 <= k < n && Text.Strip(pieces[k]) == x
  {
    if n > 0 {
      KeptExactly(pieces, n - 1, validUrl, x);
    }
  }

  /** A character absent from a string is absent from its stripped form. */
  lemma StripAddsNothing(s: string, c: char)
    requires c !in s
    ensures c !in Text.Strip(s)
  {
    var i, j := Text.StripIsSlice(s);
    assert forall k :: 0 <= k < j - i ==> s[i..j][k] == s[i + k];
  }

  /** No kept domain contains a comma. */
  lemma DomainsHaveNoComma(typed: string, validUrl: string -> bool)
    ensures forall k :: 0 <= k < |Domains(typed, validUrl)| ==> ',' !in Domains(typed, validUrl)[k]
  {
    if typed != [] {
      var pieces := Text.Split(typed, ',');
      forall k | 0 <= k < |pieces| ensures ',' !in Text.Strip(pieces[k]) {
        StripAddsNothing(pieces[k], ',');
      }
      forall k | 0 <= k < |Domains(typed, validUrl)| ensures ',' !in Domains(typed, validUrl)[k] {
        KeptExactly(pieces, |pieces|, validUrl, Domains(typed, validUrl)[k]);
      }
    }
  }

  /**
   * Every choice yields at least one origin, and every origin is a local
   * one or a typed domain that passes the check.
   */
  lemma OriginsAreAllowed(choice: string, typed: string, validUrl: string -> bool)
    ensures |Origins(choice, typed, validUrl)| >= 1
    ensures forall o :: o in Origins(choice, typed, validUrl) ==>
              o in LocalOrigins || (validUrl(o) && o in Domains(typed, validUrl))
  {
    var domains := Domains(typed, validUrl);
    forall o | o in domains ensures validUrl(o) {
      var pieces := Text.Split(typed, ',');
      KeptExactly(pieces, |pieces|, validUrl, o);
    }
  }

  /** The comma-joined origins read back as the same list: no origin holds a comma. */
  lemma OriginsRoundTrip(choice: string, typed: string, validUrl: string -> bool)
    ensures var origins := Origins(choice, typed, validUrl);
            Text.Split(Text.Join(origins, ","), ',') == origins
  {
    var origins := Origins(choice, typed, validUrl);
    DomainsHaveNoComma(typed, validUrl);
    assert ',' !in LocalOrigin && ',' !in LoopbackOrigin;
    assert forall k :: 0 <= k < |origins| ==> ',' !in origins[k];
    OriginsAreAllowed(choice, typed, validUrl);
    Text.SplitJoin(origins, ',');
  }

  method KeepIfValid(r: seq<string>, piece: string, validUrl: string -> bool) returns (r': seq<string>)
    ensures var domain := Text.Strip(piece); r' == r + if validUrl(domain) then [domain] else []
  {
    var domain := Text.Strip(piece);
    r' := r;
    if validUrl(domain) {
      r' := r' + [domain];
    }
  }

  /** The domain loop of choices 2 and 3: append each stripped piece that passes the check. */
  method AppendValid(origins: seq<string>, pieces: seq<string>, validUrl: string -> bool)
    returns (r: seq<string>)
    ensures r == origins + Kept(pieces, |pieces|, validUrl)
  {
    r := origins;
    for i := 0 to |pieces|
      invariant r == origins + Kept(pieces, i, validUrl)
    {
      r := KeepIfValid(r, pieces[i], validUrl);
    }
  }

  /** The domain prompt of choices 2 and 3: a blank answer adds nothing. */
  method CollectDomains(origins: seq<string>, typed: string, validUrl: string -> bool)
    returns (r: seq<string>)
    ensures r == origins + Domains(typed, validUrl)
  {
    r := origins;
    if typed != [] {
      r := AppendValid(origins, Text.Split(typed, ','), validUrl);
    }
  }

  /** The menu of `setup_cors_config`. */
  method SelectOrigins(choice: string, typed: string, validUrl: string -> bool)
    returns (origins: seq<string>)
    ensures origins == Origins(choice, typed, validUrl)
  {
    origins := [];
    if choice == "1" {
      origins := LocalOrigins;
    } else if choice == "2" {
      origins := CollectDomains(origins, typed, validUrl);
      if origins == [] {
        origins := [LocalOrigin];
      }
    } else if choice == "3" {
      origins := LocalOrigins;
      origins := CollectDomains(origins, typed, validUrl);
    } else {
      origins := [LocalOrigin];
    }
  }

  // ---- The .env lines ------------------------------------------------------------------

  function OriginsLine(originsText: string): string {
    OriginsKey + originsText + "\n"
  }

  /** The first line that starts with `key`, if any. */
  function FirstWithPrefix(lines: seq<string>, key: string): (r: Option<nat>)
    ensures r.Some? ==> r.value < |lines| && Text.StartsWith(lines[r.value], key)
    ensures r.Some? ==> forall j :: 0 <= j < r.value ==> !Text.StartsWith(lines[j], key)
    ensures r.None? <==> forall j :: 0 <= j < |lines| ==> !Text.StartsWith(lines[j], key)
    decreases |lines|
  {
    if lines == [] then None
    else if Text.StartsWith(lines[0], key) then Some(0)
    else
      match FirstWithPrefix(lines[1..], key)
      case None => None
      case Some(i) => Some(i + 1)
  }

  predicate HasLineWith(lines: seq<string>, key: string) {
    exists j :: 0 <= j < |lines| && Text.StartsWith(lines[j], key)
  }

  /** The lines after the origins update: the first origins line replaced, or one appended. */
  function WithOrigins(lines: seq<string>, originsText: string): seq<string> {
    match FirstWithPrefix(lines, OriginsKey)
    case Some(i) => lines[i := OriginsLine(originsText)]
    case None => lines + [OriginsLine(originsText)]
  }

  /** The lines the script writes back. */
  function UpdatedEnv(lines: seq<string>, originsText: string): seq<string> {
    var withOrigins := WithOrigins(lines, originsText);
    withOrigins
      + (if HasLineWith(withOrigins, MethodsKey) then [] else [MethodsLine])
      + (if HasLineWith(withOrigins, HeadersKey) then [] else [HeadersLine])
  }

  /** The first loop: replace the first origins line and stop, or append one. */
  method SetOriginsLine(lines: seq<string>, originsText: string) returns (content: seq<string>)
    ensures content == WithOrigins(lines, originsText)
  {
    content := lines;
    var corsFound := false;
    var i := 0;
    while i < |content|
      invariant 0 <= i <= |content| && content == lines
      invariant forall j :: 0 <= j < i ==> !Text.StartsWith(lines[j], OriginsKey)
    {
      if Text.StartsWith(content[i], OriginsKey) {
        content := content[i := OriginsLine(originsText)];
        corsFound := true;
        break;
      }
      i := i + 1;
    }
    if !corsFound {
      content := content + [OriginsLine(originsText)];
    }
  }

  /** The second loop: which of the two other keys already has a line. */
  method FindKeys(content: seq<string>) returns (methodsFound: bool, headersFound: bool)
    ensures methodsFound == HasLineWith(content, MethodsKey)
    ensures headersFound == HasLineWith(content, HeadersKey)
  {
    methodsFound, headersFound := false, false;
    for i := 0 to |content|
      invariant methodsFound == HasLineWith(content[..i], MethodsKey)
      invariant headersFound == HasLineWith(content[..i], HeadersKey)
    {
      assert forall j :: 0 <= j < i ==> content[..i + 1][j] == content[..i][j];
      if Text.StartsWith(content[i], MethodsKey) {
        assert content[..i + 1][i] == content[i];
        assert !Text.StartsWith(content[i], HeadersKey) by {
          assert content[i][8] == 'M';
        }
        methodsFound := true;
      } else if Text.StartsWith(content[i], HeadersKey) {
        assert content[..i + 1][i] == content[i];
        headersFound := true;
      }
    }
    assert content[..|content|] == content;
  }

  /** The `.env` update of `setup_cors_config`. */
  method UpdateEnvLines(lines: seq<string>, originsText: string) returns (content: seq<string>)
    ensures content == UpdatedEnv(lines, originsText)
  {
    content := SetOriginsLine(lines, originsText);
    var methodsFound, headersFound := FindKeys(content);
    if !methodsFound {
      content := content + [MethodsLine];
    }
    if !headersFound {
      content := content + [HeadersLine];
    }
  }

  /**
   * `setup_cors_config` without its prompts and printing: the text written
   * for the given answers, from the file's text or from nothing when there
   * is no file.
   */
  method SetupCorsConfig(choice: string, typed: string, validUrl: string -> bool, existing: Option<string>)
    returns (written: string)
    ensures written == UpdatedFile(Universal(existing.GetOr("")), Text.Join(Origins(choice, typed, validUrl), ","))
  {
    var origins := SelectOrigins(choice, typed, validUrl);
    var originsText := Text.Join(origins, ",");
    var lines := if existing.Some? then ReadLines(Universal(existing.value)) else [];
    var content := UpdateEnvLines(lines, originsText);
    written := Concat(content);
  }

  // ---- Properties of the update ------------------------------------------------------------

  lemma OriginsLineStartsWithKey(originsText: string)
    ensures Text.StartsWith(OriginsLine(originsText), OriginsKey)
    ensures !Text.StartsWith(OriginsLine(originsText), MethodsKey)
    ensures !Text.StartsWith(OriginsLine(originsText), HeadersKey)
  {
    var line := OriginsLine(originsText);
    assert line[..|OriginsKey|] == OriginsKey;
    assert line[8] == 'O';
  }

  /** The origins update leaves every line but the first origins line alone, and appends only when there was none. */
  lemma WithOriginsKeepsOthers(lines: seq<string>, originsText: string)
    ensures var w := WithOrigins(lines, originsText);
            && |w| == |lines| + (if FirstWithPrefix(lines, OriginsKey).None? then 1 else 0)
            && (forall j :: 0 <= j < |lines| && Some(j) != FirstWithPrefix(lines, OriginsKey) ==> w[j] == lines[j])
            && w[FirstWithPrefix(lines, OriginsKey).GetOr(|lines|)] == OriginsLine(originsText)
  {
  }

  /** A list that already holds a line with `key` still does after lines are appended. */
  lemma HasLineWithAppend(lines: seq<string>, extra: seq<string>, key: string)
    requires HasLineWith(lines, key)
    ensures HasLineWith(lines + extra, key)
  {
    var j :| 0 <= j < |lines| && Text.StartsWith(lines[j], key);
    assert (lines + extra)[j] == lines[j];
  }

  /** Only the first origins line changes: every other original line keeps its place and text. */
  lemma UpdateKeepsOtherLines(lines: seq<string>, originsText: string)
    ensures var out := UpdatedEnv(lines, originsText);
            && |out| >= |lines|
            && (forall j :: 0 <= j < |lines| && Some(j) != FirstWithPrefix(lines, OriginsKey) ==> out[j] == lines[j])
  {
    WithOriginsKeepsOthers(lines, originsText);
  }

  /** The lines written back hold all three keys. */
  lemma UpdateHoldsAllKeys(lines: seq<string>, originsText: string)
    ensures var out := UpdatedEnv(lines, originsText);
            HasLineWith(out, OriginsKey) && HasLineWith(out, MethodsKey) && HasLineWith(out, HeadersKey)
  {
    OriginsKeyPresent(lines, originsText);
    AppendedKeysPresent(WithOrigins(lines, originsText));
  }

  /** Appending the missing methods and headers lines leaves every key present. */
  lemma AppendedKeysPresent(w: seq<string>)
    requires HasLineWith(w, OriginsKey)
    ensures var out := w + (if HasLineWith(w, MethodsKey) then [] else [MethodsLine])
                         + (if HasLineWith(w, HeadersKey) then [] else [HeadersLine]);
            HasLineWith(out, OriginsKey) && HasLineWith(out, MethodsKey) && HasLineWith(out, HeadersKey)
  {
    var methods := if HasLineWith(w, MethodsKey) then [] else [MethodsLine];
    var headers := if HasLineWith(w, HeadersKey) then [] else [HeadersLine];
    HasLineWithAppend(w, methods, OriginsKey);
    HasLineWithAppend(w + methods, headers, OriginsKey);
    AppendedLinesCarryKeys();
    KeyPresentAfterAppend(w, [], MethodsKey, MethodsLine);
    assert w + [] == w;
    HasLineWithAppend(w + methods, headers, MethodsKey);
    KeyPresentAfterAppend(w, methods, HeadersKey, HeadersLine);
  }

  /** The lines the script appends start with their keys. */
  lemma AppendedLinesCarryKeys()
    ensures Text.StartsWith(MethodsLine, MethodsKey) && Text.StartsWith(HeadersLine, HeadersKey)
  {
    assert MethodsLine[..|MethodsKey|] == MethodsKey;
    assert HeadersLine[..|HeadersKey|] == HeadersKey;
  }

  /** After the origins update some line holds the origins key. */
  lemma OriginsKeyPresent(lines: seq<string>, originsText: string)
    ensures HasLineWith(WithOrigins(lines, originsText), OriginsKey)
  {
    var w := WithOrigins(lines, originsText);
    WithOriginsKeepsOthers(lines, originsText);
    OriginsLineStartsWithKey(originsText);
    assert Text.StartsWith(w[FirstWithPrefix(lines, OriginsKey).GetOr(|lines|)], OriginsKey);
  }

  /** Appending a key's line when no line has the key leaves some line with it. */
  lemma KeyPresentAfterAppend(w: seq<string>, before: seq<string>, key: string, line: string)
    requires Text.StartsWith(line, key)
    ensures HasLineWith(w + before + (if HasLineWith(w, key) then [] else [line]), key)
  {
    var out := w + before + (if HasLineWith(w, key) then [] else [line]);
    if HasLineWith(w, key) {
      var j :| 0 <= j < |w| && Text.StartsWith(w[j], key);
      assert out[j] == w[j];
    } else {
      assert out[|w| + |before|] == line;
    }
  }

  /** The origins line lands where the first one was, or at the end when there was none. */
  lemma {:induction false} FirstOriginsLineAfterUpdate(lines: seq<string>, originsText: string, extra: seq<string>)
    requires forall k :: 0 <= k < |extra| ==> !Text.StartsWith(extra[k], OriginsKey)
    ensures FirstWithPrefix(WithOrigins(lines, originsText) + extra, OriginsKey)
            == Some(FirstWithPrefix(lines, OriginsKey).GetOr(|lines|))
  {
    var out := WithOrigins(lines, originsText) + extra;
    var p := FirstWithPrefix(lines, OriginsKey).GetOr(|lines|);
    OriginsLineStartsWithKey(originsText);
    assert out[p] == OriginsLine(originsText);
    assert forall j :: 0 <= j < p ==> out[j] == lines[j];
    FirstWithPrefixIs(out, OriginsKey, p);
  }

  lemma {:induction false} FirstWithPrefixIs(lines: seq<string>, key: string, p: nat)
    requires p < |lines| && Text.StartsWith(lines[p], key)
    requires forall j :: 0 <= j < p ==> !Text.StartsWith(lines[j], key)
    ensures FirstWithPrefix(lines, key) == Some(p)
    decreases p
  {
    if p > 0 {
      FirstWithPrefixIs(lines[1..], key, p - 1);
    }
  }

  /** Running the script twice with the same answers writes the same file as running it once. */
  lemma UpdateIdempotent(lines: seq<string>, originsText: string)
    ensures UpdatedEnv(UpdatedEnv(lines, originsText), originsText) == UpdatedEnv(lines, originsText)
  {
    var withOrigins := WithOrigins(lines, originsText);
    var out := UpdatedEnv(lines, originsText);
    var extra := out[|withOrigins|..];
    assert out == withOrigins + extra;
    assert forall k :: 0 <= k < |extra| ==> extra[k] == MethodsLine || extra[k] == HeadersLine;
    assert !Text.StartsWith(MethodsLine, OriginsKey) by { assert MethodsLine[8] != OriginsKey[8]; }
    assert !Text.StartsWith(HeadersLine, OriginsKey) by { assert HeadersLine[8] != OriginsKey[8]; }
    FirstOriginsLineAfterUpdate(lines, originsText, extra);
    var p := FirstWithPrefix(lines, OriginsKey).GetOr(|lines|);
    assert out[p] == OriginsLine(originsText);
    assert WithOrigins(out, originsText) == out;
    UpdateHoldsAllKeys(lines, originsText);
  }

  // ---- The .env file as text ---------------------------------------------------------------

  /** `f.readlines()`: the text cut after each newline; a last piece without one is a line too. */
  function ReadLines(text: string): seq<string>
    decreases |text|
  {
    if text == [] then []
    else if '\n' in text then
      var i := Text.IndexOf(text, '\n');
      [text[..i + 1]] + ReadLines(text[i + 1..])
    else [text]
  }

  /** `f.writelines(lines)`: the lines one after the other, nothing added. */
  function Concat(lines: seq<string>): string
    decreases |lines|
  {
    if lines == [] then "" else lines[0] + Concat(lines[1..])
  }

  /** A whole line: its only newline is its last character. */
  predicate IsLine(line: string) {
    |line| > 0 && line[|line| - 1] == '\n' && '\n' !in line[..|line| - 1]
  }

  predicate AllLines(lines: seq<string>) {
    forall line :: line in lines ==> IsLine(line)
  }

  /** A text that is empty or ends with a newline. */
  predicate Terminated(text: string) {
    text == [] || text[|text| - 1] == '\n'
  }

  /** What the script writes for a file's text and the joined origins. */
  function UpdatedFile(text: string, originsText: string): string {
    Concat(UpdatedEnv(ReadLines(text), originsText))
  }

  /**
   * The text as a text-mode `open` hands it to `readlines`, with universal
   * newlines: each `\r\n` and each lone `\r` becomes `\n`.
   */
  function Universal(text: string): (r: string)
    ensures '\r' !in r
    ensures |r| <= |text|
    decreases |text|
  {
    if text == [] then []
    else if text[0] != '\r' then [text[0]] + Universal(text[1..])
    else if |text| > 1 && text[1] == '\n' then "\n" + Universal(text[2..])
    else "\n" + Universal(text[1..])
  }

  /** A text without carriage returns is read as it is. */
  lemma {:induction false} UniversalKeepsPlainText(text: string)
    requires '\r' !in text
    ensures Universal(text) == text
    decreases |text|
  {
    if text != [] {
      assert text == [text[0]] + text[1..];
      UniversalKeepsPlainText(text[1..]);
    }
  }

  /** The translated text is empty only for an empty text, and ends as the text does, a final `\r` read as `\n`. */
  lemma {:induction false} UniversalLast(text: string)
    requires text != []
    ensures var r := Universal(text);
            r != [] && r[|r| - 1] == (if text[|text| - 1] == '\r' then '\n' else text[|text| - 1])
    decreases |text|
  {
    if text[0] != '\r' || !(|text| > 1 && text[1] == '\n') {
      if |text| > 1 {
        UniversalLast(text[1..]);
      }
    } else if |text| > 2 {
      UniversalLast(text[2..]);
    }
  }

  /** The text read is terminated exactly when the file is empty or ends with `\n` or `\r`. */
  lemma UniversalTerminated(text: string)
    ensures Terminated(Universal(text)) <==> text == [] || text[|text| - 1] == '\n' || text[|text| - 1] == '\r'
  {
    if text != [] {
      UniversalLast(text);
    }
  }

  /** Writing back the lines read gives the text read. */
  lemma {:induction false} ConcatReadLines(text: string)
    ensures Concat(ReadLines(text)) == text
    decreases |text|
  {
    if text != [] && '\n' in text {
      var i := Text.IndexOf(text, '\n');
      ConcatReadLines(text[i + 1..]);
      assert text == text[..i + 1] + text[i + 1..];
    }
  }

  /** Reading whole lines back after writing them gives the same lines. */
  lemma {:induction false} ReadLinesConcat(lines: seq<string>)
    requires AllLines(lines)
    ensures ReadLines(Concat(lines)) == lines
    decreases |lines|
  {
    if lines != [] {
      var line := lines[0];
      assert line in lines;
      var head := line[..|line| - 1];
      var rest := Concat(lines[1..]);
      assert line == head + ['\n'];
      assert Concat(lines) == head + ['\n'] + rest;
      Text.IndexOfAfterPiece(head, '\n', rest);
      assert Concat(lines)[..|head| + 1] == line;
      assert Concat(lines)[|head| + 1..] == rest;
      assert lines[1..][0..] == lines[1..];
      assert AllLines(lines[1..]) by {
        forall l | l in lines[1..] ensures IsLine(l) {
          assert l in lines;
        }
      }
      ReadLinesConcat(lines[1..]);
    }
  }

  /** A terminated text reads as whole lines. */
  lemma {:induction false} ReadLinesOfTerminated(text: string)
    requires Terminated(text)
    ensures AllLines(ReadLines(text))
    decreases |text|
  {
    if text != [] {
      assert text[|text| - 1] in text;
      var i := Text.IndexOf(text, '\n');
      var piece := text[..i + 1];
      assert piece[..|piece| - 1] == text[..i];
      var rest := text[i + 1..];
      assert rest != [] ==> rest[|rest| - 1] == text[|text| - 1];
      ReadLinesOfTerminated(rest);
    }
  }

  /** Whole lines write a terminated text. */
  lemma {:induction false} ConcatTerminated(lines: seq<string>)
    requires AllLines(lines)
    ensures Terminated(Concat(lines))
    decreases |lines|
  {
    if lines != [] {
      assert lines[0] in lines;
      assert AllLines(lines[1..]) by {
        forall l | l in lines[1..] ensures IsLine(l) {
          assert l in lines;
        }
      }
      ConcatTerminated(lines[1..]);
    }
  }

  /** The lines the script adds are whole lines when the origins hold no newline. */
  lemma AddedLinesAreWhole(originsText: string)
    requires '\n' !in originsText
    ensures IsLine(OriginsLine(originsText)) && IsLine(MethodsLine) && IsLine(HeadersLine)
  {
    var line := OriginsLine(originsText);
    assert line[..|line| - 1] == OriginsKey + originsText;
    assert '\n' !in OriginsKey;
    assert MethodsLine[..|MethodsLine| - 1] == "ALLOWED_METHODS=GET,POST,DELETE";
    assert HeadersLine[..|HeadersLine| - 1] == "ALLOWED_HEADERS=Content-Type,Authorization";
  }

  /** Updating whole lines gives whole lines. */
  lemma UpdateKeepsWholeLines(lines: seq<string>, originsText: string)
    requires AllLines(lines) && '\n' !in originsText
    ensures AllLines(UpdatedEnv(lines, originsText))
  {
    AddedLinesAreWhole(originsText);
    var w := WithOrigins(lines, originsText);
    WithOriginsKeepsOthers(lines, originsText);
    assert AllLines(w) by {
      forall l | l in w ensures IsLine(l) {
        var j :| 0 <= j < |w| && w[j] == l;
        if j < |lines| && Some(j) != FirstWithPrefix(lines, OriginsKey) {
          assert lines[j] in lines;
        }
      }
    }
  }

  /** For a terminated file, the text written reads back as the updated lines, and is terminated. */
  lemma FileUpdateReadsBack(text: string, originsText: string)
    requires Terminated(text) && '\n' !in originsText
    ensures ReadLines(UpdatedFile(text, originsText)) == UpdatedEnv(ReadLines(text), originsText)
    ensures Terminated(UpdatedFile(text, originsText))
  {
    ReadLinesOfTerminated(text);
    UpdateKeepsWholeLines(ReadLines(text), originsText);
    ReadLinesConcat(UpdatedEnv(ReadLines(text), originsText));
    ConcatTerminated(UpdatedEnv(ReadLines(text), originsText));
  }

  /** In a terminated file every line but the first origins line keeps its place and text. */
  lemma FileUpdateKeepsOtherLines(text: string, originsText: string)
    requires Terminated(text) && '\n' !in originsText
    ensures var before := ReadLines(text);
            var after := ReadLines(UpdatedFile(text, originsText));
            && |after| >= |before|
            && (forall j :: 0 <= j < |before| && Some(j) != FirstWithPrefix(before, OriginsKey) ==> after[j] == before[j])
  {
    FileUpdateReadsBack(text, originsText);
    UpdateKeepsOtherLines(ReadLines(text), originsText);
  }

  /** A terminated file, once written, has a line for each of the three keys. */
  lemma FileUpdateHoldsAllKeys(text: string, originsText: string)
    requires Terminated(text) && '\n' !in originsText
    ensures var after := ReadLines(UpdatedFile(text, originsText));
            HasLineWith(after, OriginsKey) && HasLineWith(after, MethodsKey) && HasLineWith(after, HeadersKey)
  {
    FileUpdateReadsBack(text, originsText);
    UpdateHoldsAllKeys(ReadLines(text), originsText);
  }

  /** On a terminated file, a second run with the same origins writes the same text. */
  lemma FileUpdateIdempotent(text: string, originsText: string)
    requires Terminated(text) && '\n' !in originsText
    ensures UpdatedFile(UpdatedFile(text, originsText), originsText) == UpdatedFile(text, originsText)
  {
    FileUpdateReadsBack(text, originsText);
    UpdateIdempotent(ReadLines(text), originsText);
  }

  /** The joined origins hold a character only when a typed domain, a comma or a local origin does. */
  lemma OriginsAvoid(choice: string, typed: string, validUrl: string -> bool, c: char)
    requires c !in typed && c != ',' && c !in LocalOrigin && c !in LoopbackOrigin
    ensures c !in Text.Join(Origins(choice, typed, validUrl), ",")
  {
    var origins := Origins(choice, typed, validUrl);
    var pieces := Text.Split(typed, ',');
    forall k | 0 <= k < |pieces| ensures c !in Text.Strip(pieces[k]) {
      Text.JoinChars(pieces, [','], c);
      StripAddsNothing(pieces[k], c);
    }
    forall o | o in Domains(typed, validUrl) ensures c !in o {
      if typed != [] {
        KeptExactly(pieces, |pieces|, validUrl, o);
      }
    }
    assert forall k :: 0 <= k < |origins| ==> c !in origins[k] by {
      forall k | 0 <= k < |origins| ensures c !in origins[k] {
        OriginsAreAllowed(choice, typed, validUrl);
        assert origins[k] in origins;
      }
    }
    Text.JoinChars(origins, ",", c);
  }

  /** The joined origins hold no newline when the typed domains hold none. */
  lemma OriginsHaveNoNewline(choice: string, typed: string, validUrl: string -> bool)
    requires '\n' !in typed
    ensures '\n' !in Text.Join(Origins(choice, typed, validUrl), ",")
  {
    assert '\n' !in LocalOrigin && '\n' !in LoopbackOrigin;
    OriginsAvoid(choice, typed, validUrl, '\n');
  }

  /** No line read holds a character the text does not. */
  lemma {:induction false} ReadLinesAvoid(text: string, c: char)
    requires c !in text
    ensures forall line :: line in ReadLines(text) ==> c !in line
    decreases |text|
  {
    if text != [] && '\n' in text {
      var i := Text.IndexOf(text, '\n');
      assert text == text[..i + 1] + text[i + 1..];
      ReadLinesAvoid(text[i + 1..], c);
    }
  }

  /** The text written holds no character that no line holds. */
  lemma {:induction false} ConcatAvoid(lines: seq<string>, c: char)
    requires forall line :: line in lines ==> c !in line
    ensures c !in Concat(lines)
    decreases |lines|
  {
    if lines != [] {
      assert lines[0] in lines;
      assert forall line :: line in lines[1..] ==> line in lines;
      ConcatAvoid(lines[1..], c);
    }
  }

  /** The update adds no character that neither the lines read nor the added lines hold. */
  lemma UpdateAvoid(lines: seq<string>, originsText: string, c: char)
    requires forall line :: line in lines ==> c !in line
    requires c !in OriginsLine(originsText) && c !in MethodsLine && c !in HeadersLine
    ensures forall line :: line in UpdatedEnv(lines, originsText) ==> c !in line
  {
    var w := WithOrigins(lines, originsText);
    WithOriginsKeepsOthers(lines, originsText);
    forall line | line in w ensures c !in line {
      var j :| 0 <= j < |w| && w[j] == line;
      if j < |lines| && Some(j) != FirstWithPrefix(lines, OriginsKey) {
        assert lines[j] in lines;
      }
    }
  }

  /** The script writes no carriage return when neither the text read nor the origins hold one. */
  lemma UpdatedFileHasNoCarriageReturn(text: string, originsText: string)
    requires '\r' !in text && '\r' !in originsText
    ensures '\r' !in UpdatedFile(text, originsText)
  {
    ReadLinesAvoid(text, '\r');
    assert '\r' !in OriginsKey && '\r' !in MethodsLine && '\r' !in HeadersLine;
    assert '\r' !in OriginsLine(originsText);
    UpdateAvoid(ReadLines(text), originsText, '\r');
    ConcatAvoid(UpdatedEnv(ReadLines(text), originsText), '\r');
  }

  /**
   * Running the script again with the same answers on the file it wrote,
   * when the text first read was empty or ended with a newline, changes nothing.
   */
  lemma RerunWritesSameFile(choice: string, typed: string, validUrl: string -> bool, text: string)
    requires '\n' !in typed && '\r' !in typed && Terminated(Universal(text))
    ensures var originsText := Text.Join(Origins(choice, typed, validUrl), ",");
            var once := UpdatedFile(Universal(text), originsText);
            UpdatedFile(Universal(once), originsText) == once
  {
    var originsText := Text.Join(Origins(choice, typed, validUrl), ",");
    OriginsHaveNoNewline(choice, typed, validUrl);
    assert '\r' !in LocalOrigin && '\r' !in LoopbackOrigin;
    OriginsAvoid(choice, typed, validUrl, '\r');
    UpdatedFileHasNoCarriageReturn(Universal(text), originsText);
    UniversalKeepsPlainText(UpdatedFile(Universal(text), originsText));
    FileUpdateIdempotent(Universal(text), originsText);
  }

  /** Writing one more line adds its text at the end. */
  lemma {:induction false} ConcatSnoc(lines: seq<string>, line: string)
    ensures Concat(lines + [line]) == Concat(lines) + line
    decreases |lines|
  {
    if lines == [] {
      assert Concat([line]) == line + Concat([]);
    } else {
      assert (lines + [line])[1..] == lines[1..] + [line];
      ConcatSnoc(lines[1..], line);
    }
  }

  /**
   * The text written for a file of one line without its newline, which
   * starts like none of the keys (they all start with `A`): the three lines
   * appended after it.
   */
  lemma GluedWrite(last: string, originsText: string)
    requires last != [] && '\n' !in last && last[0] != 'A'
    ensures UpdatedFile(last, originsText) == last + OriginsLine(originsText) + MethodsLine + HeadersLine
  {
    var line := OriginsLine(originsText);
    assert ReadLines(last) == [last];
    assert !Text.StartsWith(last, OriginsKey) && !Text.StartsWith(last, MethodsKey) && !Text.StartsWith(last, HeadersKey);
    OriginsLineStartsWithKey(originsText);
    assert FirstWithPrefix([last], OriginsKey) == None;
    var w := [last, line];
    assert WithOrigins([last], originsText) == w;
    assert !HasLineWith(w, MethodsKey);
    assert !HasLineWith(w, HeadersKey);
    assert UpdatedEnv([last], originsText) == w + [MethodsLine] + [HeadersLine];
    assert Concat([last]) == last + Concat([]);
    ConcatSnoc([last], line);
    ConcatSnoc(w, MethodsLine);
    ConcatSnoc(w + [MethodsLine], HeadersLine);
  }

  /** A piece without a newline, then a newline: that is the first line read. */
  lemma ReadLinesCons(head: string, tail: string)
    requires '\n' !in head
    ensures ReadLines(head + ['\n'] + tail) == [head + ['\n']] + ReadLines(tail)
  {
    var text := head + ['\n'] + tail;
    Text.IndexOfAfterPiece(head, '\n', tail);
    assert text[..|head| + 1] == head + ['\n'];
    assert text[|head| + 1..] == tail;
  }

  /** Read back, a glued line followed by whole lines reads as the glued line and those lines. */
  lemma GluedReadBack(last: string, originsText: string, rest: seq<string>)
    requires '\n' !in last && '\n' !in originsText && AllLines(rest)
    ensures ReadLines(last + OriginsLine(originsText) + Concat(rest)) == [last + OriginsLine(originsText)] + rest
  {
    var head := last + OriginsKey + originsText;
    assert '\n' !in head by {
      assert '\n' !in OriginsKey;
    }
    var glued := last + OriginsLine(originsText);
    assert glued == head + ['\n'];
    ReadLinesConcat(rest);
    ReadLinesCons(head, Concat(rest));
  }

  /** On lines that hold the methods and headers keys but no origins line, the update appends an origins line. */
  lemma UpdateAppendsOriginsLine(lines: seq<string>, originsText: string)
    requires !HasLineWith(lines, OriginsKey) && HasLineWith(lines, MethodsKey) && HasLineWith(lines, HeadersKey)
    ensures UpdatedEnv(lines, originsText) == lines + [OriginsLine(originsText)]
  {
    HasLineWithAppend(lines, [OriginsLine(originsText)], MethodsKey);
    HasLineWithAppend(lines, [OriginsLine(originsText)], HeadersKey);
  }

  /** The methods and headers lines, written one after the other. */
  lemma TrailingLines()
    ensures Concat([MethodsLine, HeadersLine]) == MethodsLine + HeadersLine
  {
    ConcatSnoc([MethodsLine], HeadersLine);
    assert Concat([MethodsLine]) == MethodsLine + Concat([]);
  }

  /** None of the lines read back from the glued file starts with the origins key; the other two keys are there. */
  lemma GluedLinesKeys(last: string, originsText: string)
    requires last != [] && last[0] != 'A'
    ensures var after := [last + OriginsLine(originsText), MethodsLine, HeadersLine];
            !HasLineWith(after, OriginsKey) && HasLineWith(after, MethodsKey) && HasLineWith(after, HeadersKey)
  {
    var glued := last + OriginsLine(originsText);
    var after := [glued, MethodsLine, HeadersLine];
    assert !Text.StartsWith(glued, OriginsKey) by { assert glued[0] != OriginsKey[0]; }
    assert !Text.StartsWith(MethodsLine, OriginsKey) by { assert MethodsLine[8] != OriginsKey[8]; }
    assert !Text.StartsWith(HeadersLine, OriginsKey) by { assert HeadersLine[8] != OriginsKey[8]; }
    AppendedLinesCarryKeys();
    assert after[1] == MethodsLine && after[2] == HeadersLine;
  }

  /** A file with the methods and headers keys but no origins line gets one appended at its end. */
  lemma RerunAppends(text: string, originsText: string)
    requires !HasLineWith(ReadLines(text), OriginsKey)
    requires HasLineWith(ReadLines(text), MethodsKey) && HasLineWith(ReadLines(text), HeadersKey)
    ensures UpdatedFile(text, originsText) == text + OriginsLine(originsText)
  {
    UpdateAppendsOriginsLine(ReadLines(text), originsText);
    ConcatSnoc(ReadLines(text), OriginsLine(originsText));
    ConcatReadLines(text);
  }

  /** The glued text reads back as the glued line, then the methods and headers lines. */
  lemma GluedTextReadBack(last: string, originsText: string)
    requires '\n' !in last && '\n' !in originsText
    ensures ReadLines(last + OriginsLine(originsText) + MethodsLine + HeadersLine)
            == [last + OriginsLine(originsText), MethodsLine, HeadersLine]
  {
    var glued := last + OriginsLine(originsText);
    var rest := [MethodsLine, HeadersLine];
    AddedLinesAreWhole(originsText);
    TrailingLines();
    assert glued + MethodsLine + HeadersLine == glued + Concat(rest);
    GluedReadBack(last, originsText, rest);
  }

  /** A file read as those lines has no origins line, and a further run appends one. */
  lemma GluedRerunAppends(text: string, last: string, originsText: string)
    requires last != [] && last[0] != 'A'
    requires ReadLines(text) == [last + OriginsLine(originsText), MethodsLine, HeadersLine]
    ensures !HasLineWith(ReadLines(text), OriginsKey)
    ensures UpdatedFile(text, originsText) == text + OriginsLine(originsText)
  {
    GluedLinesKeys(last, originsText);
    RerunAppends(text, originsText);
  }

  /**
   * A file whose last line lacks its newline, such as `DEBUG=1`: the
   * origins line is glued to it, so the written file has no line starting
   * with `ALLOWED_ORIGINS=`, and the next run appends one origins line.
   */
  lemma UnterminatedLineIsGlued(last: string, originsText: string)
    requires last != [] && '\n' !in last && last[0] != 'A' && '\n' !in originsText
    ensures var written := UpdatedFile(last, originsText);
            && written == last + OriginsLine(originsText) + MethodsLine + HeadersLine
            && ReadLines(written) == [last + OriginsLine(originsText), MethodsLine, HeadersLine]
            && !HasLineWith(ReadLines(written), OriginsKey)
            && UpdatedFile(written, originsText) == written + OriginsLine(originsText)
  {
    GluedWrite(last, originsText);
    GluedTextReadBack(last, originsText);
    GluedRerunAppends(UpdatedFile(last, originsText), last, originsText);
  }

  /**
   * After that second run the file is stable: it reads as the glued line,
   * the methods and headers lines and one origins line, and a third run
   * writes it unchanged. The glued line stays, so the last line's value
   * keeps the origins text glued to it.
   */
  lemma GluedFileSettles(last: string, originsText: string)
    requires last != [] && '\n' !in last && last[0] != 'A' && '\n' !in originsText
    ensures var second := UpdatedFile(UpdatedFile(last, originsText), originsText);
            && ReadLines(second) == [last + OriginsLine(originsText), MethodsLine, HeadersLine, OriginsLine(originsText)]
            && UpdatedFile(second, originsText) == second
  {
    UnterminatedLineIsGlued(last, originsText);
    var written := UpdatedFile(last, originsText);
    assert written[|written| - 1] == HeadersLine[|HeadersLine| - 1];
    GluedLinesKeys(last, originsText);
    FileUpdateReadsBack(written, originsText);
    UpdateAppendsOriginsLine(ReadLines(written), originsText);
    FileUpdateIdempotent(written, originsText);
  }

  /** The file `DEBUG=1`, without a newline, is such a file: after the run no line sets the origins. */
  lemma DebugLineIsGlued(originsText: string)
    requires '\n' !in originsText
    ensures !HasLineWith(ReadLines(UpdatedFile(Universal("DEBUG=1"), originsText)), OriginsKey)
  {
    var last := "DEBUG=1";
    assert last[0] == 'D' && '\n' !in last && '\r' !in last;
    UniversalKeepsPlainText(last);
    UnterminatedLineIsGlued(last, originsText);
  }

  // ---- Terminating the last line first ------------------------------------------------------

  /** The text with a newline after its last line, when it lacks one. */
  function Terminate(text: string): (r: string)
    ensures Terminated(r)
  {
    if Terminated(text) then text else text + "\n"
  }

  /** The update with the last line terminated before the origins line is added. */
  function UpdatedFileIntended(text: string, originsText: string): string {
    UpdatedFile(Terminate(text), originsText)
  }

  /** Terminating the last line first, every file gets its three keys, each on a line of its own. */
  lemma IntendedHoldsAllKeys(text: string, originsText: string)
    requires '\n' !in originsText
    ensures var after := ReadLines(UpdatedFileIntended(text, originsText));
            HasLineWith(after, OriginsKey) && HasLineWith(after, MethodsKey) && HasLineWith(after, HeadersKey)
  {
    FileUpdateHoldsAllKeys(Terminate(text), originsText);
  }

  /** Terminating the last line first, a second run never changes the file, and a terminated file is updated as before. */
  lemma IntendedIdempotent(text: string, originsText: string)
    requires '\n' !in originsText
    ensures var once := UpdatedFileIntended(text, originsText);
            UpdatedFileIntended(once, originsText) == once
    ensures Terminated(text) ==> UpdatedFileIntended(text, originsText) == UpdatedFile(text, originsText)
  {
    FileUpdateReadsBack(Terminate(text), originsText);
    FileUpdateIdempotent(Terminate(text), originsText);
  }
}
