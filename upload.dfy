/** The file-name sanitiser and the guards of the upload service: only PDF and Word
    documents of at most 2 MiB are accepted, and the object is stored under a key made
    of a fresh UUID and the sanitised, lower-cased original name. */
module Upload {
  import opened Common
  import opened Chars

  // ---------------------------------------------------------------------------
  // Unicode canonical decomposition (NFD), for the Latin-1 letters that have one
  // ---------------------------------------------------------------------------

  /** Combining marks of the vowels with four variants (E, I, U): grave, acute,
      circumflex, diaeresis; O adds the tilde, A the tilde and the ring above. */
  const Marks4: seq<int> := [0x300, 0x301, 0x302, 0x308]
  const Marks5: seq<int> := [0x300, 0x301, 0x302, 0x303, 0x308]
  const Marks6: seq<int> := [0x300, 0x301, 0x302, 0x303, 0x308, 0x30A]

  /** Base letter and combining mark of the upper-case Latin-1 letter with code `n`,
      if it has a canonical decomposition (U+00C6, U+00D0, U+00D8 and U+00DE have none). */
  function UpperParts(n: int): (p: Option<(char, int)>)
    ensures p.Some? ==> 'A' <= p.value.0 <= 'Z' && 0x300 <= p.value.1 <= 0x36F
  {
    if 0xC0 <= n <= 0xC5 then Some(('A', Marks6[n - 0xC0]))
    else if n == 0xC7 then Some(('C', 0x327))
    else if 0xC8 <= n <= 0xCB then Some(('E', Marks4[n - 0xC8]))
    else if 0xCC <= n <= 0xCF then Some(('I', Marks4[n - 0xCC]))
    else if n == 0xD1 then Some(('N', 0x303))
    else if 0xD2 <= n <= 0xD6 then Some(('O', Marks5[n - 0xD2]))
    else if 0xD9 <= n <= 0xDC then Some(('U', Marks4[n - 0xD9]))
    else if n == 0xDD then Some(('Y', 0x301))
    else None
  }

  /** The combining diacritical marks removed by `/[̀-ͯ]/g`. */
  predicate IsMark(c: char) {
    '\U{0300}' <= c <= '\U{036F}'
  }

  predicate IsAscii(c: char) {
    c as int < 128
  }

  /** The decomposition of one character: a base letter followed by its mark, or the
      character itself. */
  function Decompose(c: char): (d: string)
    ensures |d| == 1 || |d| == 2
    ensures |d| == 1 ==> d[0] == c
    ensures |d| == 2 ==> IsAscii(d[0]) && IsLetter(d[0]) && IsMark(d[1])
  {
    var n := c as int;
    if 0xC0 <= n < 0xE0 && UpperParts(n).Some? then
      var (b, m) := UpperParts(n).value;
      [b, m as char]
    else if 0xE0 <= n < 0xFF && UpperParts(n - 0x20).Some? then
      var (b, m) := UpperParts(n - 0x20).value;
      [ToLower(b), m as char]
    else if n == 0xFF then
      ['y', '\U{0308}']
    else
      [c]
  }

  /** `normalize("NFD")`. */
  function Nfd(s: string): (r: string)
    ensures |r| >= |s|
  {
    if s == [] then [] else Decompose(s[0]) + Nfd(s[1..])
  }

  // ---------------------------------------------------------------------------
  // The replacement chain of formatFileName
  // ---------------------------------------------------------------------------

  /** The characters kept by `/[^\w.-]/g`: ASCII letters, digits, `_`, `.` and `-`. */
  predicate IsAllowed(c: char) {
    ('a' <= c <= 'z') || ('A' <= c <= 'Z') || ('0' <= c <= '9') || c == '_' || c == '.' || c == '-'
  }

  predicate NotMark(c: char) {
    !IsMark(c)
  }

  /** `replace(/[̀-ͯ]/g, "")`. */
  function StripMarks(s: string): string {
    Filter(s, NotMark)
  }

  /** `replace(/ñ|Ñ/g, ...)`. */
  function ReplaceEnye(s: string): (r: string)
    ensures |r| == |s|
  {
    if s == [] then []
    else
      var c := if s[0] == '\U{00F1}' then 'n' else if s[0] == '\U{00D1}' then 'N' else s[0];
      [c] + ReplaceEnye(s[1..])
  }

  /** `s` without its leading whitespace. */
  function SkipSpaces(s: string): (r: string)
    ensures |r| <= |s|
    ensures r == [] || !IsSpace(r[0])
    ensures exists k :: 0 <= k <= |s| && r == s[k..] && forall j :: 0 <= j < k ==> IsSpace(s[j])
  {
    if s != [] && IsSpace(s[0]) then
      var r := SkipSpaces(s[1..]);
      var k :| 0 <= k <= |s[1..]| && r == s[1..][k..] && forall j :: 0 <= j < k ==> IsSpace(s[1..][j]);
      assert r == s[k + 1..];
      r
    else
      assert s == s[0..];
      s
  }

  /** `replace(/\s+/g, "_")`: every maximal run of whitespace becomes one `_`. */
  function CollapseSpaces(s: string): (r: string)
    decreases |s|
  {
    if s == [] then []
    else if IsSpace(s[0]) then "_" + CollapseSpaces(SkipSpaces(s[1..]))
    else [s[0]] + CollapseSpaces(s[1..])
  }

  /** `formatFileName`. */
  function FormatFileName(fileName: string): (r: string)
    ensures forall i :: 0 <= i < |r| ==> IsAllowed(r[i])
  {
    Filter(CollapseSpaces(ReplaceEnye(StripMarks(Nfd(fileName)))), IsAllowed)
  }

  // ---------------------------------------------------------------------------
  // Properties of the sanitiser
  // ---------------------------------------------------------------------------

  predicate NoSpace(s: string) {
    forall i :: 0 <= i < |s| ==> !IsSpace(s[i])
  }

  predicate NoEnye(s: string) {
    forall i :: 0 <= i < |s| ==> s[i] != '\U{00F1}' && s[i] != '\U{00D1}'
  }

  predicate AllAscii(s: string) {
    forall i :: 0 <= i < |s| ==> IsAscii(s[i])
  }

  /** The result of the sanitiser has no whitespace. */
  lemma FormatFileNameNoSpace(fileName: string)
    ensures NoSpace(FormatFileName(fileName))
  {
  }

  /** A run of whitespace followed by a non-space (or the end) becomes a single `_`. */
  lemma {:induction false} CollapseRun(w: string, t: string)
    requires |w| > 0 && forall i :: 0 <= i < |w| ==> IsSpace(w[i])
    requires t == [] || !IsSpace(t[0])
    ensures CollapseSpaces(w + t) == "_" + CollapseSpaces(t)
  {
    assert (w + t)[1..] == w[1..] + t;
    SkipAll(w[1..], t);
  }

  lemma {:induction false} SkipAll(w: string, t: string)
    requires forall i :: 0 <= i < |w| ==> IsSpace(w[i])
    requires t == [] || !IsSpace(t[0])
    ensures SkipSpaces(w + t) == t
  {
    if w != [] {
      assert (w + t)[1..] == w[1..] + t;
      SkipAll(w[1..], t);
    } else {
      assert w + t == t;
    }
  }

  /** Whitespace never survives the collapse. */
  lemma {:induction false} CollapseNoSpace(s: string)
    ensures NoSpace(CollapseSpaces(s))
    decreases |s|
  {
    if s != [] {
      if IsSpace(s[0]) {
        CollapseNoSpace(SkipSpaces(s[1..]));
      } else {
        CollapseNoSpace(s[1..]);
      }
    }
  }

  /** A string without whitespace passes the collapse unchanged. */
  lemma {:induction false} CollapseIdentity(s: string)
    requires NoSpace(s)
    ensures CollapseSpaces(s) == s
    decreases |s|
  {
    if s != [] {
      CollapseIdentity(s[1..]);
    }
  }

  lemma {:induction false} KeepIdentity(s: string, p: char -> bool)
    requires forall i :: 0 <= i < |s| ==> p(s[i])
    ensures Filter(s, p) == s
  {
    if s != [] {
      KeepIdentity(s[1..], p);
    }
  }

  lemma {:induction false} NfdAscii(s: string)
    requires AllAscii(s)
    ensures Nfd(s) == s
  {
    if s != [] {
      NfdAscii(s[1..]);
    }
  }

  lemma {:induction false} EnyeIdentity(s: string)
    requires NoEnye(s)
    ensures ReplaceEnye(s) == s
  {
    if s != [] {
      EnyeIdentity(s[1..]);
    }
  }

  lemma {:induction false} NfdNoEnye(s: string)
    ensures NoEnye(Nfd(s))
  {
    if s != [] {
      NfdNoEnye(s[1..]);
      var d := Decompose(s[0]);
      assert s[0] == '\U{00F1}' || s[0] == '\U{00D1}' ==> |d| == 2;
    }
  }

  lemma {:induction false} KeepNoEnye(s: string, p: char -> bool)
    requires NoEnye(s)
    ensures NoEnye(Filter(s, p))
  {
    if s != [] {
      KeepNoEnye(s[1..], p);
    }
  }

  /** After canonical decomposition and mark removal no `ñ` or `Ñ` is left, so the
      dedicated replacement step of the chain never changes anything. */
  lemma EnyeStepInert(fileName: string)
    ensures ReplaceEnye(StripMarks(Nfd(fileName))) == StripMarks(Nfd(fileName))
  {
    NfdNoEnye(fileName);
    KeepNoEnye(Nfd(fileName), NotMark);
    EnyeIdentity(StripMarks(Nfd(fileName)));
  }

  /** For an ASCII name, the sanitiser only turns whitespace runs into `_` and drops
      the disallowed characters; the allowed ones keep their relative order. */
  lemma FormatAscii(fileName: string)
    requires AllAscii(fileName)
    ensures FormatFileName(fileName) == Filter(CollapseSpaces(fileName), IsAllowed)
    ensures NoSpace(fileName) ==> FormatFileName(fileName) == Filter(fileName, IsAllowed)
  {
    NfdAscii(fileName);
    KeepIdentity(fileName, NotMark);
    EnyeIdentity(fileName);
    if NoSpace(fileName) {
      CollapseIdentity(fileName);
    }
  }

  /** Sanitising an already sanitised name changes nothing. */
  lemma FormatIdempotent(fileName: string)
    ensures FormatFileName(FormatFileName(fileName)) == FormatFileName(fileName)
  {
    var r := FormatFileName(fileName);
    assert AllAscii(r) && NoSpace(r) && NoEnye(r);
    NfdAscii(r);
    KeepIdentity(r, NotMark);
    EnyeIdentity(r);
    CollapseIdentity(r);
    KeepIdentity(r, IsAllowed);
  }

  // ---------------------------------------------------------------------------
  // uploadFile
  // ---------------------------------------------------------------------------

  const MaxFileSize: nat := 2 * 1024 * 1024

  const AllowedMimeTypes: seq<string> := [
    "application/pdf",
    "application/msword",
    "application/vnd.openxmlformats-officedocument.wordprocessingml.document"]

  /** The part of a Multer upload that the service reads. */
  datatype File = File(originalname: string, mimetype: string, size: nat)

  /** The object key: the UUID, a dash and the lower-cased sanitised name. */
  function ObjectKey(uuid: string, originalname: string): (key: string)
    ensures |key| == |uuid| + 1 + |FormatFileName(originalname)|
    ensures key[..|uuid| + 1] == uuid + "-"
    ensures forall i :: |uuid| + 1 <= i < |key| ==> IsAllowed(key[i]) && !IsUpper(key[i])
    ensures forall i :: 0 <= i < |FormatFileName(originalname)| ==>
              key[|uuid| + 1 + i] == ToLower(FormatFileName(originalname)[i])
  {
    uuid + "-" + Lower(FormatFileName(originalname))
  }

  /** `uploadFile` up to the S3 call: the type guard, then the size guard, then the
      URL `<endpoint>/<bucket>/<key>`. The UUID, the endpoint and the bucket name are
      parameters (a random generator and two environment variables in the source). */
  function UploadFile(file: File, uuid: string, endpoint: string, bucket: string): (r: Result<string>)
    ensures file.mimetype !in AllowedMimeTypes ==> r == Err(BadRequest(MimeNotAllowed))
    ensures file.mimetype in AllowedMimeTypes && file.size > MaxFileSize ==> r == Err(BadRequest(FileTooLarge))
    ensures r.Ok? <==> file.mimetype in AllowedMimeTypes && file.size <= MaxFileSize
    ensures r.Ok? ==> r.value == endpoint + "/" + bucket + "/" + ObjectKey(uuid, file.originalname)
  {
    if file.mimetype !in AllowedMimeTypes then Err(BadRequest(MimeNotAllowed))
    else if file.size > MaxFileSize then Err(BadRequest(FileTooLarge))
    else Ok(endpoint + "/" + bucket + "/" + ObjectKey(uuid, file.originalname))
  }

  /** A PDF of exactly 2 MiB is accepted; one byte more is refused. */
  lemma SizeBoundary(name: string, uuid: string, endpoint: string, bucket: string)
    ensures UploadFile(File(name, "application/pdf", 2097152), uuid, endpoint, bucket).Ok?
    ensures UploadFile(File(name, "application/pdf", 2097153), uuid, endpoint, bucket)
            == Err(BadRequest(FileTooLarge))
  {
  }
}
