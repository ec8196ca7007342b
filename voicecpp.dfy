/** The pure parts of the whisper.cpp transcription (backend/repository/voicecpp.py): the file
    names it derives, the choice of result from the recogniser's exit code and output, and the
    removal of bracketed timestamps. Writing files and running the converter and the recogniser
    are not modelled; the recogniser's run is the input `Process`. */
module VoiceCpp {
  import opened Text
  import opened States

  /** A lower-case hexadecimal digit. */
  function HexDigit(d: nat): char
    requires d < 16
  {
    "0123456789abcdef"[d]
  }

  predicate IsHexDigit(c: char) {
    '0' <= c <= '9' || 'a' <= c <= 'f'
  }

  function HexValue(c: char): nat {
    if '0' <= c <= '9' then (c - '0') as nat
    else if 'a' <= c <= 'f' then (c - 'a') as nat + 10
    else 0
  }

  function Pow16(n: nat): (p: nat)
    ensures p >= 1
  {
    if n == 0 then 1 else 16 * Pow16(n - 1)
  }

  /** The `n` lowest hexadecimal digits of `u`, most significant first, zero-padded: the
      rendering `uuid.hex` gives of the 128-bit value of a UUID when `n` is 32. */
  function Hex(u: nat, n: nat): (h: string)
    ensures |h| == n
    ensures forall k :: 0 <= k < n ==> IsHexDigit(h[k])
  {
    if n == 0 then [] else Hex(u / 16, n - 1) + [HexDigit(u % 16)]
  }

  /** The value of a hexadecimal numeral, most significant digit first. */
  function ParseHex(s: string): nat {
    if s == [] then 0 else 16 * ParseHex(s[..|s| - 1]) + HexValue(s[|s| - 1])
  }

  /** The rendering loses nothing: a value below `16^n` is read back from its `n` digits. */
  lemma {:induction false} ParseHexOfHex(u: nat, n: nat)
    requires u < Pow16(n)
    ensures ParseHex(Hex(u, n)) == u
  {
    if n > 0 {
      var d := u % 16;
      assert HexValue(HexDigit(d)) == d by {
        assert d < 10 || d == 10 || d == 11 || d == 12 || d == 13 || d == 14 || d == 15;
      }
      assert u / 16 < Pow16(n - 1);
      ParseHexOfHex(u / 16, n - 1);
      var h := Hex(u, n);
      assert h[..|h| - 1] == Hex(u / 16, n - 1);
    }
  }

  /** `f"{uuid.uuid4().hex}.webm"` for the UUID whose value is `u`. */
  function UniqueName(u: nat): (name: string)
    ensures |name| == 37 && name[32..] == ".webm"
    ensures forall k :: 0 <= k < 32 ==> IsHexDigit(name[k])
  {
    Hex(u, 32) + ".webm"
  }

  /** Where the upload is written: the upload folder, then the caller's `sub`, then the name. */
  function WebmFile(folder: string, sub: string, name: string): (path: string)
    ensures |path| == |folder| + |sub| + |name| + 2
    ensures path[..|folder|] == folder && path[|folder|] == '/'
    ensures path[|path| - |name|..] == name && path[|path| - |name| - 1] == '/'
  {
    folder + "/" + sub + "/" + name
  }

  /** `webm_file.replace('.webm', '.wav')` */
  function WavFile(webm: string): (wav: string)
    ensures |wav| <= |webm|
  {
    ReplaceAll(webm, ".webm", ".wav")
  }

  /** With no '.' in the folder or in `sub`, the wav file sits beside the upload under the same
      hexadecimal name. */
  lemma WavBesideWebm(folder: string, sub: string, u: nat)
    requires '.' !in folder && '.' !in sub
    ensures WavFile(WebmFile(folder, sub, UniqueName(u))) == folder + "/" + sub + "/" + Hex(u, 32) + ".wav"
  {
    var prefix := folder + "/" + sub + "/" + Hex(u, 32);
    assert '.' !in prefix by {
      forall k | 0 <= k < |prefix| ensures prefix[k] != '.' {
        if k >= |folder| + |sub| + 2 { assert IsHexDigit(Hex(u, 32)[k - |folder| - |sub| - 2]); }
        else if k > |folder| && k < |folder| + 1 + |sub| { assert prefix[k] == sub[k - |folder| - 1]; }
      }
    }
    assert WebmFile(folder, sub, UniqueName(u)) == prefix + ".webm";
    ReplaceSkipsPrefix(prefix, ".webm", ".webm", ".wav");
    assert ReplaceAll(".webm", ".webm", ".wav") == ".wav" + ReplaceAll("", ".webm", ".wav");
  }

  /** Where the shortest `[...]` starting just before `s` closes: the index of the first ']' in
      `s`, provided no line feed comes before it (`.` does not match a line feed). */
  function BracketEnd(s: string): (r: Option<nat>)
    ensures r.Some? ==> (r.value < |s| && s[r.value] == ']'
      && forall k :: 0 <= k < r.value ==> s[k] != ']' && s[k] != '\n')
    ensures r.None? ==> forall k :: 0 <= k < |s| && s[k] == ']' ==> exists m :: 0 <= m < k && s[m] == '\n'
  {
    if s == [] then None
    else if s[0] == ']' then Some(0)
    else if s[0] == '\n' then None
    else
      match BracketEnd(s[1..])
      case None =>
        assert forall k :: 1 <= k < |s| && s[k] == ']' ==> exists m :: 0 <= m < k && s[m] == '\n' by {
          forall k | 1 <= k < |s| && s[k] == ']' ensures exists m :: 0 <= m < k && s[m] == '\n' {
            assert s[1..][k - 1] == ']';
            var m :| 0 <= m < k - 1 && s[1..][m] == '\n';
            assert s[m + 1] == '\n';
          }
        }
        None
      case Some(k) => Some(k + 1)
  }

  /** `re.sub(r'\[.*?\]\s*', '', t)`: scanning left to right, every '[' that closes on its line
      is removed with everything up to its first ']' and the whitespace after it. */
  function RemoveStamps(t: string): (r: string)
    ensures |r| <= |t|
    decreases |t|
  {
    if t == [] then []
    else if t[0] != '[' then [t[0]] + RemoveStamps(t[1..])
    else
      match BracketEnd(t[1..])
      case None => [t[0]] + RemoveStamps(t[1..])
      case Some(k) => RemoveStamps(StripStart(t[k + 2..]))
  }

  /** No match of the timestamp pattern is left in `s`. */
  predicate StampFree(s: string) {
    forall i :: 0 <= i < |s| && s[i] == '[' ==> BracketEnd(s[i + 1..]).None?
  }

  /** A bracket that does not close on its line stays unclosed after stamps are removed. */
  lemma {:induction false} RemoveStampsKeepsUnclosed(s: string)
    requires BracketEnd(s).None?
    ensures BracketEnd(RemoveStamps(s)).None?
    decreases |s|
  {
    if s != [] {
      if s[0] != '\n' {
        assert s[0] != ']';
        RemoveStampsKeepsUnclosed(s[1..]);
        assert RemoveStamps(s) == [s[0]] + RemoveStamps(s[1..]);
        assert ([s[0]] + RemoveStamps(s[1..]))[1..] == RemoveStamps(s[1..]);
      } else {
        assert RemoveStamps(s) == [s[0]] + RemoveStamps(s[1..]);
      }
    }
  }

  /** A character put in front of a string without timestamps starts none, unless it is a '['
      that closes on its line. */
  lemma ConsStampFree(c: char, rest: string)
    requires StampFree(rest)
    requires c == '[' ==> BracketEnd(rest).None?
    ensures StampFree([c] + rest)
  {
    var r := [c] + rest;
    assert r[1..] == rest;
    forall i | 1 <= i < |r| && r[i] == '[' ensures BracketEnd(r[i + 1..]).None? {
      assert r[i] == rest[i - 1];
      assert r[i + 1..] == rest[i..];
    }
  }

  /** No timestamp survives the substitution. */
  lemma {:induction false} RemoveStampsStampFree(t: string)
    ensures StampFree(RemoveStamps(t))
    decreases |t|, 1
  {
    if t != [] {
      if t[0] == '[' && BracketEnd(t[1..]).Some? {
        DroppedStampFree(t);
      } else {
        KeptStampFree(t);
      }
    }
  }

  /** The case of a leading timestamp: what follows it is cleaned on its own. */
  lemma {:induction false} DroppedStampFree(t: string)
    requires t != [] && t[0] == '[' && BracketEnd(t[1..]).Some?
    ensures StampFree(RemoveStamps(t))
    decreases |t|, 0
  {
    var k := BracketEnd(t[1..]).value;
    var next := StripStart(t[k + 2..]);
    assert RemoveStamps(t) == RemoveStamps(next);
    RemoveStampsStampFree(next);
  }

  /** The case of a first character that is kept. */
  lemma {:induction false} KeptStampFree(t: string)
    requires t != [] && !(t[0] == '[' && BracketEnd(t[1..]).Some?)
    ensures StampFree(RemoveStamps(t))
    decreases |t|, 0
  {
    assert RemoveStamps(t) == [t[0]] + RemoveStamps(t[1..]);
    RemoveStampsStampFree(t[1..]);
    if t[0] == '[' {
      RemoveStampsKeepsUnclosed(t[1..]);
    }
    ConsStampFree(t[0], RemoveStamps(t[1..]));
  }

  /** A string with no timestamp in it is left as it is. */
  lemma {:induction false} StampFreeUnchanged(s: string)
    requires StampFree(s)
    ensures RemoveStamps(s) == s
    decreases |s|
  {
    if s != [] {
      assert StampFree(s[1..]) by {
        forall i | 0 <= i < |s[1..]| && s[1..][i] == '[' ensures BracketEnd(s[1..][i + 1..]).None? {
          assert s[1..][i + 1..] == s[i + 2..];
        }
      }
      StampFreeUnchanged(s[1..]);
    }
  }

  /** Removing timestamps twice is removing them once. */
  lemma RemoveStampsIdempotent(t: string)
    ensures RemoveStamps(RemoveStamps(t)) == RemoveStamps(t)
  {
    RemoveStampsStampFree(t);
    StampFreeUnchanged(RemoveStamps(t));
  }

  /** Text without any '[' passes through unchanged. */
  lemma NoBracketUnchanged(t: string)
    requires '[' !in t
    ensures RemoveStamps(t) == t
  {
    StampFreeUnchanged(t);
  }

  lemma {:induction false} BracketEndAt(x: string, rest: string)
    requires ']' !in x && '\n' !in x
    ensures BracketEnd(x + "]" + rest) == Some(|x|)
    decreases |x|
  {
    if x != [] {
      assert (x + "]" + rest)[1..] == x[1..] + "]" + rest;
      BracketEndAt(x[1..], rest);
    }
  }

  /** A leading timestamp `[x]` goes, with the whitespace that follows it. */
  lemma StampDropped(x: string, rest: string)
    requires ']' !in x && '\n' !in x
    ensures RemoveStamps("[" + x + "]" + rest) == RemoveStamps(StripStart(rest))
  {
    var t := "[" + x + "]" + rest;
    assert t[1..] == x + "]" + rest;
    BracketEndAt(x, rest);
    assert t[|x| + 2..] == rest;
  }

  /** A prefix of a string with no closing ']' on the current line has none either. */
  lemma BracketEndPrefix(s: string, m: nat)
    requires m <= |s| && BracketEnd(s).None?
    ensures BracketEnd(s[..m]).None?
  {
    forall k | 0 <= k < m && s[..m][k] == ']' ensures exists j :: 0 <= j < k && s[..m][j] == '\n' {
      var j :| 0 <= j < k && s[j] == '\n';
      assert s[..m][j] == '\n';
    }
  }

  /** A suffix of a string without timestamps has none. */
  lemma StampFreeSuffix(s: string, a: nat)
    requires a <= |s| && StampFree(s)
    ensures StampFree(s[a..])
  {
    forall i | 0 <= i < |s[a..]| && s[a..][i] == '[' ensures BracketEnd(s[a..][i + 1..]).None? {
      assert s[a..][i + 1..] == s[a + i + 1..];
    }
  }

  /** A prefix of a string without timestamps has none. */
  lemma StampFreePrefix(s: string, b: nat)
    requires b <= |s| && StampFree(s)
    ensures StampFree(s[..b])
  {
    forall i | 0 <= i < b && s[..b][i] == '[' ensures BracketEnd(s[..b][i + 1..]).None? {
      assert s[..b][i + 1..] == s[i + 1..][..b - i - 1];
      BracketEndPrefix(s[i + 1..], b - i - 1);
    }
  }

  /** Cutting whitespace off either end cannot create a timestamp. */
  lemma StripStampFree(s: string)
    requires StampFree(s)
    ensures StampFree(Strip(s))
  {
    var t := StripStart(s);
    StampFreeSuffix(s, |s| - |t|);
    StampFreePrefix(t, |StripEnd(t)|);
  }

  /** `re.sub(r'\[.*?\]\s*', '', transcription).strip()`: trimmed and free of timestamps. */
  function CleanText(transcription: string): (r: string)
    ensures StampFree(r)
    ensures r == [] || (!IsSpace(r[0]) && !IsSpace(r[|r| - 1]))
  {
    RemoveStampsStampFree(transcription);
    StripStampFree(RemoveStamps(transcription));
    Strip(RemoveStamps(transcription))
  }

  /** The recogniser's run: exit code and captured output. */
  datatype Process = Process(returnCode: int, stdout: string, stderr: string)

  /** The text returned once the recogniser has run. */
  function SelectResult(p: Process): (text: string)
    ensures p.returnCode != 0 ==> text == "Transcription failed: " + p.stderr
    ensures p.returnCode == 0 && AllSpace(p.stdout) ==> text == "No transcription found"
    ensures p.returnCode == 0 && !AllSpace(p.stdout) ==> text == CleanText(Strip(p.stdout)) && StampFree(text)
  {
    StripEmptyIffAllSpace(p.stdout);
    if p.returnCode == 0 then
      var transcription := Strip(p.stdout);
      if transcription != "" then CleanText(transcription) else "No transcription found"
    else "Transcription failed: " + p.stderr
  }

  /** Output that is a single timestamp cleans to the empty text, which is returned as it is. */
  lemma OnlyStampGivesEmpty(x: string)
    requires ']' !in x && '\n' !in x
    ensures SelectResult(Process(0, "[" + x + "]", "")) == ""
  {
    var out := "[" + x + "]";
    assert out[0] == '[' && out[|out| - 1] == ']';
    assert !AllSpace(out);
    assert StripStart(out) == out;
    assert StripEnd(out) == out;
    assert out == "[" + x + "]" + "";
    StampDropped(x, "");
  }

  /** What `transcribe_voice` returns: a text and the generated name, or nothing at all
      because it raised. */
  datatype Transcription = Returned(text: string, uniqueName: string) | Crashed

  /** `transcribe_voice` as written, for the UUID value `u`: when the model file is missing it
      reads `exe_path` before that variable is assigned and raises instead of returning. */
  function TranscribeVoice(u: nat, modelExists: bool, exeExists: bool, p: Process): (o: Transcription)
    ensures o.Crashed? <==> !modelExists
    ensures o.Returned? ==> o.uniqueName == UniqueName(u)
    ensures modelExists && !exeExists ==> o.text == "Error: Executable not found"
    ensures modelExists && exeExists ==> o.text == SelectResult(p)
  {
    if !modelExists then Crashed
    else if !exeExists then Returned("Error: Executable not found", UniqueName(u))
    else Returned(SelectResult(p), UniqueName(u))
  }

  /** The model-missing message is never produced. */
  lemma ModelMissingNeverReported(u: nat, exeExists: bool, p: Process)
    ensures TranscribeVoice(u, false, exeExists, p) != Returned("Error: Model not found", UniqueName(u))
  {
  }

  /** `transcribe_voice` as its authors evidently meant it: the model-missing branch returns
      its message like the other error branches. */
  function TranscribeVoiceIntended(u: nat, modelExists: bool, exeExists: bool, p: Process): (o: Transcription)
    ensures o.Returned? && o.uniqueName == UniqueName(u)
    ensures !modelExists ==> o.text == "Error: Model not found"
    ensures modelExists ==> o == TranscribeVoice(u, modelExists, exeExists, p)
  {
    if !modelExists then Returned("Error: Model not found", UniqueName(u))
    else TranscribeVoice(u, modelExists, exeExists, p)
  }
}
