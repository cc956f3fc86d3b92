/** frontend/pdf_server.py: how `PDFServer.upload_pdf` names the stored copy and builds its
    URL, and how `delete_pdf` maps a URL back to a file. Copying, the HTTP server process
    and the file system itself are outside the model: whether the copy succeeded and which
    files exist are parameters. */
module PdfServer {
  import opened Wrappers
  import opened Strings
  import opened Paths

  const DefaultBaseDir: string := "/tmp/pdf_storage"
  const DefaultPort: int := 8085

  /** `self.base_url`: the fixed network address with the server's port. */
  function BaseUrl(port: int): (r: string)
    ensures StartsWith(r, "http://192.168.1.172:") && ':' in r
  {
    assert ("http://192.168.1.172:" + IntToString(port))[4] == ':';
    "http://192.168.1.172:" + IntToString(port)
  }

  // ---------------------------------------------------------------- naming

  /** `.replace(" ", "_").replace("(", "").replace(")", "")`, used for the candidate key
      and for the file name. */
  function Safe(s: string): string {
    ReplaceAll(ReplaceAll(ReplaceAll(s, " ", "_"), "(", ""), ")", "")
  }

  /** The cleaned text has no space and no parenthesis, and gains no other character
      than '_'. */
  lemma SafeFacts(s: string, d: char)
    ensures ' ' !in Safe(s) && '(' !in Safe(s) && ')' !in Safe(s)
    ensures d !in s && d != '_' ==> d !in Safe(s)
  {
    var a := ReplaceAll(s, " ", "_");
    var b := ReplaceAll(a, "(", "");
    ReplaceCharGone(s, ' ', "_");
    ReplaceChars(a, "(", "", ' ');
    ReplaceChars(b, ")", "", ' ');
    ReplaceCharGone(a, '(', "");
    ReplaceChars(b, ")", "", '(');
    ReplaceCharGone(b, ')', "");
    if d !in s && d != '_' {
      ReplaceChars(s, " ", "_", d);
      ReplaceChars(a, "(", "", d);
      ReplaceChars(b, ")", "", d);
    }
  }

  /** Text with no space and no parenthesis is left as it is. */
  lemma SafeIdentity(s: string)
    requires ' ' !in s && '(' !in s && ')' !in s
    ensures Safe(s) == s
  {
    MissingCharNotContains(s, " ", ' ');
    ReplaceAbsent(s, " ", "_");
    MissingCharNotContains(s, "(", '(');
    ReplaceAbsent(s, "(", "");
    MissingCharNotContains(s, ")", ')');
    ReplaceAbsent(s, ")", "");
  }

  /** Replacing one character distributes over concatenation. */
  lemma {:induction false} ReplaceCharConcat(a: string, b: string, c: char, r: string)
    ensures ReplaceAll(a + b, [c], r) == ReplaceAll(a, [c], r) + ReplaceAll(b, [c], r)
    decreases |a|
  {
    if a == [] {
      assert a + b == b;
    } else {
      var x := if a[0] == c then r else [a[0]];
      ReplaceCharStep(a + b, c, r);
      ReplaceCharStep(a, c, r);
      assert (a + b)[1..] == a[1..] + b;
      ReplaceCharConcat(a[1..], b, c, r);
      assert x + (ReplaceAll(a[1..], [c], r) + ReplaceAll(b, [c], r))
          == (x + ReplaceAll(a[1..], [c], r)) + ReplaceAll(b, [c], r);
    }
  }

  /** Replacing one character, one step: the first character or its replacement, then
      the rest. */
  lemma ReplaceCharStep(s: string, c: char, r: string)
    requires s != []
    ensures ReplaceAll(s, [c], r) == (if s[0] == c then r else [s[0]]) + ReplaceAll(s[1..], [c], r)
  {
    assert ([c] <= s) == (s[0] == c) by {
      if s[0] == c { assert s[..1] == [c]; }
    }
  }

  /** A tail without spaces or parentheses survives the cleaning unchanged. */
  lemma SafeTail(a: string, t: string)
    requires ' ' !in t && '(' !in t && ')' !in t
    ensures Safe(a + t) == Safe(a) + t
  {
    ReplaceCharConcat(a, t, ' ', "_");
    MissingCharNotContains(t, " ", ' ');
    ReplaceAbsent(t, " ", "_");
    var a1 := ReplaceAll(a, " ", "_");
    ReplaceCharConcat(a1, t, '(', "");
    MissingCharNotContains(t, "(", '(');
    ReplaceAbsent(t, "(", "");
    var a2 := ReplaceAll(a1, "(", "");
    ReplaceCharConcat(a2, t, ')', "");
    MissingCharNotContains(t, ")", ')');
    ReplaceAbsent(t, ")", "");
  }

  /** What follows `<type>_` in the stored name: the safe name for a file whose name
      ends in ".pdf" in any case, otherwise the stem of the safe name with ".pdf". */
  function StoredTail(original: string): string {
    if EndsWith(Lower(original), ".pdf") then Safe(original) else Stem(Safe(original)) + ".pdf"
  }

  /** The name of the stored copy, `<type>_<tail>`. */
  function StoredName(filePath: string, fileType: string): string {
    fileType + "_" + StoredTail(PathName(filePath))
  }

  /** No character absent from a path appears in its last component. */
  lemma PathNameChars(p: string, c: char)
    requires c !in p
    ensures c !in PathName(p)
  {
    var q := RStripSlashes(p);
    assert q == p[..|q|];
  }

  /** A stem holds only characters of the name. */
  lemma StemChars(name: string, c: char)
    requires c !in name
    ensures c !in Stem(name)
  {
  }

  /** A text ending in a part that lowers to `p` lowers to a text ending in `p`. */
  lemma EndsWithLowered(t: string, e: string, p: string)
    requires |e| <= |t| && t[|t| - |e|..] == e && Lower(e) == p
    ensures EndsWith(Lower(t), p)
  {
    var pre := t[..|t| - |e|];
    assert t == pre + e;
    LowerConcat(pre, e);
    assert Lower(t)[|Lower(t)| - |p|..] == Lower(e);
  }

  /** A four-character ending that lowers to ".pdf" has no space and no parenthesis. */
  lemma PdfEndingPlain(e: string)
    requires Lower(e) == ".pdf"
    ensures ' ' !in e && '(' !in e && ')' !in e
  {
    forall j | 0 <= j < |e| ensures e[j] != ' ' && e[j] != '(' && e[j] != ')' {
      assert LowerChar(e[j]) == ".pdf"[j];
    }
  }

  /** The tail ends in ".pdf" up to case. */
  lemma TailPdf(original: string)
    ensures EndsWith(Lower(StoredTail(original)), ".pdf")
  {
    var t := StoredTail(original);
    if EndsWith(Lower(original), ".pdf") {
      var n := |original|;
      var pre := original[..n - 4];
      var e := original[n - 4..];
      assert original == pre + e;
      LowerConcat(pre, e);
      assert Lower(e) == Lower(original)[n - 4..];
      PdfEndingPlain(e);
      SafeTail(pre, e);
      EndsWithLowered(t, e, ".pdf");
    } else {
      assert Lower(".pdf") == ".pdf";
      EndsWithLowered(t, ".pdf", ".pdf");
    }
  }

  /** The characters the stored name may add to the original: those of "_.pdf". */
  predicate NameMark(c: char) { c == '_' || c == '.' || c == 'p' || c == 'd' || c == 'f' }

  /** The tail has no space and no parenthesis, and no character absent from the name
      other than those of "_.pdf". */
  lemma TailChars(original: string, c: char)
    ensures var t := StoredTail(original); ' ' !in t && '(' !in t && ')' !in t
    ensures c !in original && !NameMark(c) ==> c !in StoredTail(original)
  {
    var safe := Safe(original);
    SafeFacts(original, c);
    StemChars(safe, ' ');
    StemChars(safe, '(');
    StemChars(safe, ')');
    if c !in original && !NameMark(c) {
      StemChars(safe, c);
    }
  }

  /** The stored name starts with the type and '_' and ends in ".pdf" up to case. */
  lemma StoredNamePdf(filePath: string, fileType: string)
    ensures var r := StoredName(filePath, fileType);
      StartsWith(r, fileType + "_") && EndsWith(Lower(r), ".pdf")
  {
    var t := StoredTail(PathName(filePath));
    TailPdf(PathName(filePath));
    LowerConcat(fileType + "_", t);
    EndsWithConcat(Lower(fileType + "_"), Lower(t), ".pdf");
  }

  /** After the `<type>_` prefix the stored name carries no space or parenthesis, and it
      holds no character (other than those of "_.pdf") absent from both the type and the
      path. */
  lemma StoredNameChars(filePath: string, fileType: string, c: char)
    ensures var r := StoredName(filePath, fileType);
      (forall i :: |fileType| < i < |r| ==> r[i] != ' ' && r[i] != '(' && r[i] != ')')
      && (c !in filePath && c !in fileType && !NameMark(c) ==> c !in r)
  {
    var original := PathName(filePath);
    TailChars(original, c);
    if c !in filePath {
      PathNameChars(filePath, c);
    }
    PlainAfterHead(fileType + "_", StoredTail(original), c);
  }

  /** A head followed by a tail without spaces or parentheses: only the head can hold
      them, and a character in neither part is in neither. */
  lemma PlainAfterHead(head: string, t: string, c: char)
    requires ' ' !in t && '(' !in t && ')' !in t
    ensures forall i :: |head| <= i < |head + t| ==> (head + t)[i] != ' ' && (head + t)[i] != '(' && (head + t)[i] != ')'
    ensures c !in head && c !in t ==> c !in head + t
  {
    forall i | |head| <= i < |head + t| ensures (head + t)[i] != ' ' && (head + t)[i] != '(' && (head + t)[i] != ')' {
      assert (head + t)[i] == t[i - |head|];
    }
  }

  /** The location of the copy relative to the base directory: `<safe key>/<stored name>`,
      or the stored name alone when the safe key is empty (joining "" adds nothing). */
  function StoredPath(filePath: string, candidateKey: string, fileType: string): string {
    var k := Safe(candidateKey);
    if k == "" then StoredName(filePath, fileType) else k + "/" + StoredName(filePath, fileType)
  }

  /** `f"{self.base_url}/{safe_candidate_key}/{dest_path.name}"`. */
  function UploadUrl(port: int, filePath: string, candidateKey: string, fileType: string): string {
    BaseUrl(port) + "/" + Safe(candidateKey) + "/" + PathName(StoredName(filePath, fileType))
  }

  /** `upload_pdf`: the URL once the copy is in place, `None` when creating the directory
      or copying raised. */
  function UploadPdf(port: int, filePath: string, candidateKey: string, fileType: string, copied: bool): (r: Option<string>)
    ensures r.Some? <==> copied
    ensures r.Some? ==> StartsWith(r.value, BaseUrl(port) + "/" + Safe(candidateKey) + "/")
  {
    if copied then Some(UploadUrl(port, filePath, candidateKey, fileType)) else None
  }

  /** The URL ends in ".pdf" up to case whenever the type holds no '/'. */
  lemma UploadUrlPdf(port: int, filePath: string, candidateKey: string, fileType: string)
    requires '/' !in fileType
    ensures EndsWith(Lower(UploadUrl(port, filePath, candidateKey, fileType)), ".pdf")
  {
    var n := StoredName(filePath, fileType);
    StoredNameNoSlash(filePath, fileType);
    PathNameOfPlain(n);
    StoredNamePdf(filePath, fileType);
    var pre := BaseUrl(port) + "/" + Safe(candidateKey) + "/";
    LowerConcat(pre, n);
    EndsWithConcat(Lower(pre), Lower(n), ".pdf");
  }

  // ---------------------------------------------------------------- percent-decoding

  predicate IsHex(c: char) { '0' <= c <= '9' || 'a' <= c <= 'f' || 'A' <= c <= 'F' }

  function HexValue(c: char): nat {
    if '0' <= c <= '9' then c as nat - '0' as nat
    else if 'a' <= c <= 'f' then c as nat - 'a' as nat + 10
    else if 'A' <= c <= 'F' then c as nat - 'A' as nat + 10
    else 0
  }

  /** `%XY` at index `i` is an escape of an ASCII character. */
  predicate EscapeAt(s: string, i: int) {
    0 <= i && i + 3 <= |s| && s[i] == '%' && IsHex(s[i + 1]) && IsHex(s[i + 2]) && HexValue(s[i + 1]) < 8
  }

  /** `urllib.parse.unquote`: every `%XY` escape of an ASCII character becomes that
      character; everything else is copied. */
  function Unquote(s: string): (r: string)
    ensures |r| <= |s|
    decreases |s|
  {
    if s == [] then []
    else if EscapeAt(s, 0) then [(16 * HexValue(s[1]) + HexValue(s[2])) as char] + Unquote(s[3..])
    else [s[0]] + Unquote(s[1..])
  }

  /** Text without '%' decodes to itself, in front of anything. */
  lemma {:induction false} UnquotePlain(a: string, b: string)
    requires '%' !in a
    ensures Unquote(a + b) == a + Unquote(b)
    decreases |a|
  {
    if a == [] {
      assert a + b == b;
    } else {
      assert (a + b)[1..] == a[1..] + b;
      UnquotePlain(a[1..], b);
    }
  }

  /** Text without '%' decodes to itself. */
  lemma UnquoteNoPercent(s: string)
    requires '%' !in s
    ensures Unquote(s) == s
  {
    UnquotePlain(s, "");
    assert s + "" == s;
  }

  /** Decoding shortens any text that holds an escape. */
  lemma {:induction false} UnquoteShrinks(s: string, i: int)
    requires EscapeAt(s, i)
    ensures |Unquote(s)| < |s|
    decreases |s|
  {
    if !EscapeAt(s, 0) {
      assert EscapeAt(s[1..], i - 1);
      UnquoteShrinks(s[1..], i - 1);
    }
  }

  // ---------------------------------------------------------------- deletion

  /** The relative path `delete_pdf` derives from a URL: the base URL removed everywhere,
      leading slashes stripped, then percent-decoded. */
  function DeleteTarget(port: int, url: string): string {
    Unquote(LStripChar(ReplaceAll(url, BaseUrl(port), ""), '/'))
  }

  /** `delete_pdf`: True exactly when the derived file exists and unlinking it succeeded;
      `existing` holds the relative paths of the stored files. */
  function DeletePdf(port: int, url: string, existing: set<string>, unlinked: bool): bool {
    DeleteTarget(port, url) in existing && unlinked
  }

  /** Removing a prefix that occurs nowhere else leaves the rest. */
  lemma StripBase(base: string, rest: string)
    requires |base| > 0 && !Contains(rest, base)
    ensures ReplaceAll(base + rest, base, "") == rest
  {
    assert (base + rest)[|base|..] == rest;
    ReplaceAbsent(rest, base, "");
  }

  /** Removing the base URL from `<base>/<key>/<name>` leaves `/<key>/<name>` when
      neither part holds ':'. */
  lemma StripBaseOf(base: string, k: string, n: string)
    requires |base| > 0 && ':' in base && ':' !in k && ':' !in n
    ensures ReplaceAll(base + "/" + k + "/" + n, base, "") == "/" + k + "/" + n
  {
    var rest := "/" + k + "/" + n;
    assert ':' !in rest;
    MissingCharNotContains(rest, base, ':');
    Regroup(base, k, n);
    StripBase(base, rest);
  }

  lemma Regroup(base: string, k: string, n: string)
    ensures base + "/" + k + "/" + n == base + ("/" + k + "/" + n)
  {
  }

  /** Stripping the leading slashes of `/<key>/<name>` leaves `<key>/<name>`, or the name
      alone for an empty key. */
  lemma LStripOf(k: string, n: string)
    requires '/' !in k && n != [] && n[0] != '/'
    ensures LStripChar("/" + k + "/" + n, '/') == if k == "" then n else k + "/" + n
  {
    var rest := "/" + k + "/" + n;
    assert LStripChar(n, '/') == n;
    if k == "" {
      assert rest[1..] == "/" + n && ("/" + n)[1..] == n;
      assert LStripChar("/" + n, '/') == n;
    } else {
      assert rest[1..] == k + "/" + n;
      assert LStripChar(k + "/" + n, '/') == k + "/" + n;
    }
  }

  /** Removing the base URL and the leading slashes from `<base>/<key>/<name>` leaves
      `<key>/<name>`, or the name alone for an empty key. */
  lemma UrlPath(base: string, k: string, n: string)
    requires |base| > 0 && ':' in base && ':' !in k && ':' !in n
    requires '/' !in k && n != [] && n[0] != '/'
    ensures LStripChar(ReplaceAll(base + "/" + k + "/" + n, base, ""), '/')
            == if k == "" then n else k + "/" + n
  {
    StripBaseOf(base, k, n);
    LStripOf(k, n);
  }

  /** With no '/' in the type, the stored name has none either. */
  lemma StoredNameNoSlash(filePath: string, fileType: string)
    requires '/' !in fileType
    ensures '/' !in StoredName(filePath, fileType)
  {
    TailChars(PathName(filePath), '/');
  }

  /** Without ':' in the inputs and '/' in key and type, the URL path of an upload names
      exactly the stored copy before decoding. */
  lemma UrlPathOfUpload(port: int, filePath: string, candidateKey: string, fileType: string)
    requires ':' !in candidateKey && ':' !in filePath && ':' !in fileType
    requires '/' !in candidateKey && '/' !in fileType
    ensures LStripChar(ReplaceAll(UploadUrl(port, filePath, candidateKey, fileType), BaseUrl(port), ""), '/')
            == StoredPath(filePath, candidateKey, fileType)
  {
    var k := Safe(candidateKey);
    var n := StoredName(filePath, fileType);
    SafeFacts(candidateKey, ':');
    SafeFacts(candidateKey, '/');
    StoredNameChars(filePath, fileType, ':');
    StoredNameNoSlash(filePath, fileType);
    StoredNamePdf(filePath, fileType);
    PathNameOfPlain(n);
    assert n != [] && n[0] != '/' by {
      assert n[..|fileType| + 1] == fileType + "_";
      if fileType != [] { assert n[0] == fileType[0]; }
    }
    UrlPath(BaseUrl(port), k, n);
  }

  /** A name without '/' is its own last component. */
  lemma PathNameOfPlain(n: string)
    requires '/' !in n
    ensures PathName(n) == n
  {
    assert RStripSlashes(n) == n;
    assert LastIndexOf(n, '/') == -1;
  }

  /** As written, deleting through the URL an upload returned reaches the stored copy
      when no name involved holds '%' (nor ':', nor '/' in key and type). */
  lemma AsWrittenRoundTrip(port: int, filePath: string, candidateKey: string, fileType: string)
    requires ':' !in candidateKey && ':' !in filePath && ':' !in fileType
    requires '/' !in candidateKey && '/' !in fileType
    requires '%' !in candidateKey && '%' !in filePath && '%' !in fileType
    ensures DeleteTarget(port, UploadUrl(port, filePath, candidateKey, fileType))
            == StoredPath(filePath, candidateKey, fileType)
  {
    var p := StoredPath(filePath, candidateKey, fileType);
    UrlPathOfUpload(port, filePath, candidateKey, fileType);
    DeleteTargetOf(port, UploadUrl(port, filePath, candidateKey, fileType), p);
    StoredPathChars(filePath, candidateKey, fileType, '%');
    UnquoteNoPercent(p);
  }

  /** The target is the decoded path once the base URL and the slashes are gone. */
  lemma DeleteTargetOf(port: int, url: string, p: string)
    requires LStripChar(ReplaceAll(url, BaseUrl(port), ""), '/') == p
    ensures DeleteTarget(port, url) == Unquote(p)
  {
  }

  /** As written, deleting through the URL of an upload whose names hold no '%' (nor ':',
      nor '/' in key and type) succeeds exactly when the stored copy exists and unlinking
      it works. */
  lemma AsWrittenDelete(port: int, filePath: string, candidateKey: string, fileType: string,
                        existing: set<string>, unlinked: bool)
    requires ':' !in candidateKey && ':' !in filePath && ':' !in fileType
    requires '/' !in candidateKey && '/' !in fileType
    requires '%' !in candidateKey && '%' !in filePath && '%' !in fileType
    ensures DeletePdf(port, UploadUrl(port, filePath, candidateKey, fileType), existing, unlinked)
            <==> StoredPath(filePath, candidateKey, fileType) in existing && unlinked
  {
    AsWrittenRoundTrip(port, filePath, candidateKey, fileType);
  }

  /** A character in none of the inputs (nor in "_.pdf/") is not in the stored path. */
  lemma StoredPathChars(filePath: string, candidateKey: string, fileType: string, c: char)
    requires c !in filePath && c !in candidateKey && c !in fileType && !NameMark(c) && c != '/'
    ensures c !in StoredPath(filePath, candidateKey, fileType)
  {
    SafeFacts(candidateKey, c);
    StoredNameChars(filePath, fileType, c);
  }

  /** As written, a stored path holding an escape such as "%20" is decoded on deletion,
      so the URL an upload returned never reaches its own copy. */
  lemma AsWrittenEscapeLost(port: int, filePath: string, candidateKey: string, fileType: string, i: int)
    requires ':' !in candidateKey && ':' !in filePath && ':' !in fileType
    requires '/' !in candidateKey && '/' !in fileType
    requires EscapeAt(StoredPath(filePath, candidateKey, fileType), i)
    ensures DeleteTarget(port, UploadUrl(port, filePath, candidateKey, fileType))
            != StoredPath(filePath, candidateKey, fileType)
  {
    UrlPathOfUpload(port, filePath, candidateKey, fileType);
    UnquoteShrinks(StoredPath(filePath, candidateKey, fileType), i);
  }

  /** A plain ".pdf" file name under a plain, non-empty key is stored as
      `<key>/<type>_<name>`. */
  lemma StoredPathPlain(name: string, key: string, fileType: string)
    requires '/' !in name && ' ' !in name && '(' !in name && ')' !in name
    requires ' ' !in key && '(' !in key && ')' !in key && key != ""
    requires EndsWith(Lower(name), ".pdf")
    ensures StoredPath(name, key, fileType) == key + "/" + fileType + "_" + name
  {
    PathNameOfPlain(name);
    SafeIdentity(name);
    SafeIdentity(key);
    assert StoredTail(name) == name;
    assert StoredName(name, fileType) == fileType + "_" + name;
    AppendAssoc(key + "/", fileType, "_", name);
  }

  lemma AppendAssoc(a: string, b: string, c: string, d: string)
    ensures a + (b + c + d) == a + b + c + d
  {
  }

  lemma ExampleNameChars(name: string)
    requires name == "cv%20final.pdf"
    ensures '/' !in name && ' ' !in name && '(' !in name && ')' !in name && ':' !in name
  {
  }

  lemma ExampleNamePdf(name: string)
    requires name == "cv%20final.pdf"
    ensures EndsWith(Lower(name), ".pdf")
  {
    assert Lower(name)[|name| - 4..] == ".pdf";
  }

  /** The resume "cv%20final.pdf" of candidate "Alice" is stored as
      "Alice/resume_cv%20final.pdf" (`StoredPathPlain`), and deleting through the URL its
      upload returned fails even though that file is there. */
  lemma EscapeLostExample(name: string, key: string, fileType: string)
    requires name == "cv%20final.pdf" && key == "Alice" && fileType == "resume"
    ensures !DeletePdf(DefaultPort, UploadUrl(DefaultPort, name, key, fileType), {StoredPath(name, key, fileType)}, true)
  {
    ExampleNameChars(name);
    ExampleNamePdf(name);
    ExampleWordChars(key, "Alice");
    ExampleWordChars(fileType, "resume");
    StoredPathPlain(name, key, fileType);
    ExampleEscape(name, key, fileType);
    EscapeLostDelete(DefaultPort, name, key, fileType, 15);
  }

  /** A word of letters only holds none of the characters the path lemmas exclude. */
  lemma ExampleWordChars(w: string, lit: string)
    requires w == lit && (lit == "Alice" || lit == "resume")
    ensures ':' !in w && '/' !in w && ' ' !in w && '(' !in w && ')' !in w && w != ""
  {
  }

  /** So deleting through such a URL fails even when the stored copy is the one file there. */
  lemma EscapeLostDelete(port: int, filePath: string, candidateKey: string, fileType: string, i: int)
    requires ':' !in candidateKey && ':' !in filePath && ':' !in fileType
    requires '/' !in candidateKey && '/' !in fileType
    requires EscapeAt(StoredPath(filePath, candidateKey, fileType), i)
    ensures !DeletePdf(port, UploadUrl(port, filePath, candidateKey, fileType), {StoredPath(filePath, candidateKey, fileType)}, true)
  {
    AsWrittenEscapeLost(port, filePath, candidateKey, fileType, i);
  }

  lemma ExampleEscape(name: string, key: string, fileType: string)
    requires name == "cv%20final.pdf" && key == "Alice" && fileType == "resume"
    ensures EscapeAt(key + "/" + fileType + "_" + name, 15)
  {
    var pre := key + "/" + fileType + "_";
    assert |pre| == 13;
    var p := pre + name;
    assert p[15] == name[2] && p[16] == name[3] && p[17] == name[4];
    assert EscapeAt(p, 15);
  }

  // ---------------------------------------------------------------- corrected upload URL

  /** Characters `urllib.parse.quote(s, safe="")` leaves as they are. */
  predicate Unreserved(c: char) {
    'a' <= c <= 'z' || 'A' <= c <= 'Z' || '0' <= c <= '9' || c == '_' || c == '.' || c == '-' || c == '~'
  }

  function HexDigit(d: nat): char
    requires d < 16
  {
    if d < 10 then ('0' as int + d) as char else ('A' as int + d - 10) as char
  }

  /** The percent escape of one ASCII character. */
  function Escape(c: char): string
    requires (c as int) < 128
  {
    ['%', HexDigit(c as int / 16), HexDigit(c as int % 16)]
  }

  /** One character as `quote` writes it: kept when unreserved or beyond ASCII, escaped
      otherwise. */
  function QuoteChar(c: char): (r: string)
    ensures ':' !in r && '/' !in r && r != []
  {
    if Unreserved(c) || (c as int) >= 128 then [c] else Escape(c)
  }

  /** Escapes every reserved ASCII character; other characters are kept. */
  function Quote(s: string): (r: string)
    ensures ':' !in r && '/' !in r && (s != [] ==> r != [] && r[0] != '/')
  {
    if s == [] then [] else QuoteChar(s[0]) + Quote(s[1..])
  }

  /** An escape decodes back to its character. */
  lemma UnquoteEscape(c: char, t: string)
    requires (c as int) < 128
    ensures Unquote(Escape(c) + t) == [c] + Unquote(t)
  {
    var s := Escape(c) + t;
    var v := c as int;
    assert HexValue(HexDigit(v / 16)) == v / 16;
    assert HexValue(HexDigit(v % 16)) == v % 16;
    assert EscapeAt(s, 0);
    assert s[3..] == t;
  }

  /** A quoted character decodes back to itself. */
  lemma UnquoteChar(c: char, t: string)
    ensures Unquote(QuoteChar(c) + t) == [c] + Unquote(t)
  {
    if Unreserved(c) || (c as int) >= 128 {
      UnquotePlain([c], t);
    } else {
      UnquoteEscape(c, t);
    }
  }

  /** Decoding undoes quoting, in front of anything. */
  lemma {:induction false} UnquoteQuote(s: string, t: string)
    ensures Unquote(Quote(s) + t) == s + Unquote(t)
    decreases |s|
  {
    if s != [] {
      var rest := Quote(s[1..]);
      assert Quote(s) + t == QuoteChar(s[0]) + (rest + t);
      UnquoteChar(s[0], rest + t);
      UnquoteQuote(s[1..], t);
      ConsConcat(s, Unquote(t));
    } else {
      assert Quote(s) + t == t && s + Unquote(t) == Unquote(t);
    }
  }

  lemma ConsConcat(s: string, u: string)
    requires s != []
    ensures [s[0]] + (s[1..] + u) == s + u
  {
  }

  /** Decoding undoes quoting. */
  lemma UnquoteQuoteAll(s: string)
    ensures Unquote(Quote(s)) == s
  {
    UnquoteQuote(s, "");
    assert Quote(s) + "" == Quote(s) && s + "" == s;
  }

  /** The upload URL with the key and the name percent-quoted. */
  function QuotedUploadUrl(port: int, filePath: string, candidateKey: string, fileType: string): string {
    BaseUrl(port) + "/" + Quote(Safe(candidateKey)) + "/" + Quote(PathName(StoredName(filePath, fileType)))
  }

  /** With quoting, deleting through the returned URL succeeds exactly when the stored
      copy exists and unlinking it works. */
  lemma QuotedDelete(port: int, filePath: string, candidateKey: string, fileType: string,
                     existing: set<string>, unlinked: bool)
    requires '/' !in fileType
    ensures DeletePdf(port, QuotedUploadUrl(port, filePath, candidateKey, fileType), existing, unlinked)
            <==> StoredPath(filePath, candidateKey, fileType) in existing && unlinked
  {
    QuotedRoundTrip(port, filePath, candidateKey, fileType);
  }

  /** With quoting, deleting through the returned URL always reaches the stored copy,
      whatever characters the key and the file name hold. */
  lemma QuotedRoundTrip(port: int, filePath: string, candidateKey: string, fileType: string)
    requires '/' !in fileType
    ensures DeleteTarget(port, QuotedUploadUrl(port, filePath, candidateKey, fileType))
            == StoredPath(filePath, candidateKey, fileType)
  {
    var k := Safe(candidateKey);
    var n := StoredName(filePath, fileType);
    StoredNameNoSlash(filePath, fileType);
    StoredNamePdf(filePath, fileType);
    assert n != [] by {
      assert n[..|fileType| + 1] == fileType + "_";
    }
    PathNameOfPlain(n);
    var u := QuotedUploadUrl(port, filePath, candidateKey, fileType);
    assert u == BaseUrl(port) + "/" + Quote(k) + "/" + Quote(n);
    UrlPath(BaseUrl(port), Quote(k), Quote(n));
    if k == "" {
      UnquoteQuoteAll(n);
    } else {
      UnquoteJoin(k, n);
    }
    assert DeleteTarget(port, u) == Unquote(if k == "" then Quote(n) else Quote(k) + "/" + Quote(n));
  }

  /** Decoding `<quoted key>/<quoted name>` gives `<key>/<name>`. */
  lemma UnquoteJoin(k: string, n: string)
    ensures Unquote(Quote(k) + "/" + Quote(n)) == k + "/" + n
  {
    var qk, qn := Quote(k), Quote(n);
    Assoc(qk, "/", qn);
    UnquoteQuote(k, "/" + qn);
    UnquoteSlash(n);
    Assoc(k, "/", n);
  }

  lemma Assoc(a: string, b: string, c: string)
    ensures a + b + c == a + (b + c)
  {
  }

  /** Decoding `/<quoted name>` gives `/<name>`. */
  lemma UnquoteSlash(n: string)
    ensures Unquote("/" + Quote(n)) == "/" + n
  {
    UnquotePlain("/", Quote(n));
    UnquoteQuoteAll(n);
  }
}
