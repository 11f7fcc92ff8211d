/**
  A reader of exported JSON: strings by the grammar of section 7 of RFC 8259,
  bundles by the names of their members. Reading undoes the encoding, so nothing
  of a bundle is lost, swapped or respelled.
*/
module ExportJsonReader {
  import opened Common
  import opened ExportBudget
  import opened ExportJson

  // ---- Strings ----

  function HexValue(c: char): Option<nat> {
    if '0' <= c <= '9' then Some((c - '0') as nat)
    else if 'a' <= c <= 'f' then Some((c - 'a') as nat + 10)
    else if 'A' <= c <= 'F' then Some((c - 'A') as nat + 10)
    else None
  }

  /** The character of four hex digits; half of a surrogate pair is none. */
  function FourHex(s: string): Option<char>
    requires |s| >= 4
  {
    match (HexValue(s[0]), HexValue(s[1]), HexValue(s[2]), HexValue(s[3]))
    case (Some(a), Some(b), Some(c), Some(d)) =>
      var code := ((a * 16 + b) * 16 + c) * 16 + d;
      if code < 0xD800 || 0xE000 <= code < 0x10000 then Some(code as char) else None
    case _ => None
  }

  /** The character after a backslash that stands for one by itself. */
  function ShortEscape(c: char): Option<char> {
    if c == '"' || c == '\\' || c == '/' then Some(c)
    else if c == 'b' then Some(8 as char)
    else if c == 'f' then Some(12 as char)
    else if c == 'n' then Some(10 as char)
    else if c == 'r' then Some(13 as char)
    else if c == 't' then Some(9 as char)
    else None
  }

  /** The first character of what stands in a string, and the rest. */
  function ReadChar(s: string): Option<(char, string)> {
    if s == "" || s[0] == '"' || s[0] as int < 0x20 then None
    else if s[0] != '\\' then Some((s[0], s[1..]))
    else if |s| >= 2 && ShortEscape(s[1]).Some? then Some((ShortEscape(s[1]).value, s[2..]))
    else if |s| >= 6 && s[1] == 'u' && FourHex(s[2..]).Some? then Some((FourHex(s[2..]).value, s[6..]))
    else None
  }

  /** The text up to the closing quotation mark, and what follows it. */
  function ReadText(s: string): Option<(string, string)>
    decreases |s|
  {
    if s != "" && s[0] == '"' then Some(("", s[1..]))
    else
      match ReadChar(s)
      case None => None
      case Some((c, rest)) =>
        match ReadText(rest)
        case None => None
        case Some((text, after)) => Some(([c] + text, after))
  }

  lemma ReadsControl(c: char, rest: string)
    requires c as int < 0x20 && c as int !in {8, 9, 10, 12, 13}
    ensures ReadChar(Escape(c) + rest) == Some((c, rest))
  {
    var code := c as int;
    var s := Escape(c) + rest;
    assert Escape(c) == "\\u00" + [HexDigit(code / 16), HexDigit(code % 16)];
    assert s[0] == '\\' && s[1] == 'u' && s[2] == '0' && s[3] == '0';
    assert s[4] == HexDigit(code / 16) && s[5] == HexDigit(code % 16);
    assert s[6..] == rest;
    HexRead(code / 16);
    HexRead(code % 16);
    assert s[2..][0] == '0' && s[2..][1] == '0' && s[2..][2] == s[4] && s[2..][3] == s[5];
    assert HexValue('0') == Some(0);
    assert code == 16 * (code / 16) + code % 16;
  }

  lemma HexRead(n: nat)
    requires n < 16
    ensures HexValue(HexDigit(n)) == Some(n)
  {
  }

  lemma ReadsEscape(c: char, rest: string)
    ensures ReadChar(Escape(c) + rest) == Some((c, rest)) && Escape(c) != "" && (Escape(c) + rest)[0] != '"'
  {
    var code := c as int;
    if code < 0x20 && code !in {8, 9, 10, 12, 13} {
      ReadsControl(c, rest);
    } else {
      hide FourHex;
      var s := Escape(c) + rest;
      if |Escape(c)| == 2 { assert s[2..] == rest && s[0] == '\\'; } else { assert s[1..] == rest; }
    }
  }

  lemma {:induction false} EscapedConcat(a: string, b: string)
    ensures Escaped(a + b) == Escaped(a) + Escaped(b)
  {
    hide Escape;
    if b == "" {
      assert a + b == a && Escaped(a) + "" == Escaped(a);
    } else {
      var n := |b| - 1;
      EscapedConcat(a, b[..n]);
      assert (a + b)[..|a + b| - 1] == a + b[..n] && (a + b)[|a + b| - 1] == b[n];
      Associative(Escaped(a), Escaped(b[..n]), Escape(b[n]));
    }
  }

  lemma EscapedCons(c: char, s: string)
    ensures Escaped([c] + s) == Escape(c) + Escaped(s)
  {
    hide Escape;
    EscapedConcat([c], s);
    assert [c][..0] == "" && Escaped([c]) == "" + Escape(c);
  }

  lemma {:induction false} ReadsText(text: string, rest: string)
    ensures ReadText(Escaped(text) + "\"" + rest) == Some((text, rest))
  {
    hide Escape, ReadChar;
    var s := Escaped(text) + "\"" + rest;
    if text == "" {
      assert s == "\"" + rest && s[1..] == rest;
    } else {
      var c, more := text[0], text[1..];
      var after := Escaped(more) + "\"" + rest;
      assert text == [c] + more;
      EscapedCons(c, more);
      assert s == Escape(c) + after;
      ReadsEscape(c, after);
      ReadsText(more, rest);
      ReadsOneMore(s, c, after, more, rest);
    }
  }

  lemma ReadsOneMore(s: string, c: char, after: string, more: string, rest: string)
    requires s != "" && s[0] != '"' && ReadChar(s) == Some((c, after)) && ReadText(after) == Some((more, rest))
    ensures ReadText(s) == Some(([c] + more, rest))
  {
  }

  // ---- Bundles ----

  /** What follows `literal`, if the text begins with it. */
  function After(s: string, literal: string): Option<string> {
    if literal <= s then Some(s[|literal|..]) else None
  }

  /** A string member: its name, its text, the rest. */
  function ReadMember(s: string, name: string): Option<(string, string)> {
    match After(s, "\"" + name + "\":\"")
    case None => None
    case Some(t) => ReadText(t)
  }

  function ReadFile(s: string): Option<(File, string)> {
    match After(s, "{")
    case None => None
    case Some(inside) =>
      match ReadMember(inside, "path")
      case None => None
      case Some((path, more)) =>
        match After(more, ",")
        case None => None
        case Some(second) =>
          match ReadMember(second, "content")
          case None => None
          case Some((content, end)) =>
            match After(end, "}")
            case None => None
            case Some(rest) => Some((File(path, content), rest))
  }

  function ReadFiles(s: string): Option<(seq<File>, string)>
    decreases |s|
  {
    match ReadFile(s)
    case None => None
    case Some((f, rest)) =>
      if rest != "" && rest[0] == ',' && |rest| <= |s| then
        match ReadFiles(rest[1..])
        case None => None
        case Some((more, after)) => Some(([f] + more, after))
      else Some(([f], rest))
  }

  /** The bundle a whole text spells. */
  function ReadBundle(s: string): Option<Bundle> {
    match After(s, "{")
    case None => None
    case Some(inside) =>
      match ReadMember(inside, "root")
      case None => None
      case Some((root, more)) =>
        match After(more, ",\"files\":[")
        case None => None
        case Some(list) =>
          if list == "]}" then Some(Bundle(root, []))
          else
            match ReadFiles(list)
            case Some((files, "]}")) => Some(Bundle(root, files))
            case _ => None
  }

  lemma ReadsAfter(literal: string, rest: string)
    ensures After(literal + rest, literal) == Some(rest)
  {
  }

  lemma ReadsMember(name: string, text: string, rest: string)
    ensures ReadMember("\"" + name + "\":" + Quoted(text) + rest, name) == Some((text, rest))
  {
    hide Escaped, ReadText, After;
    var literal := "\"" + name + "\":\"";
    ReadsAfter(literal, Escaped(text) + "\"" + rest);
    assert "\"" + name + "\":" + Quoted(text) + rest == literal + (Escaped(text) + "\"" + rest);
    ReadsText(text, rest);
  }

  lemma ReadsFile(f: File, rest: string)
    ensures ReadFile(EncodeFile(f) + rest) == Some((f, rest))
  {
    hide Quoted, After, ReadMember;
    var end := "}" + rest;
    var second := "\"" + "content" + "\":" + Quoted(f.content) + end;
    var more := "," + second;
    var inside := "\"" + "path" + "\":" + Quoted(f.path) + more;
    assert EncodeFile(f) + rest == "{" + inside by { FileInPieces(f, rest); }
    ReadsAfter("{", inside);
    ReadsMember("path", f.path, more);
    ReadsAfter(",", second);
    ReadsMember("content", f.content, end);
    ReadsAfter("}", rest);
  }

  lemma FileInPieces(f: File, rest: string)
    ensures EncodeFile(f) + rest ==
            "{" + ("\"" + "path" + "\":" + Quoted(f.path) + ("," + ("\"" + "content" + "\":" + Quoted(f.content) + ("}" + rest))))
  {
    hide Quoted;
    var a, b := Quoted(f.path), Quoted(f.content);
    assert "{\"path\":" == "{" + ("\"" + "path" + "\":") && ",\"content\":" == "," + ("\"" + "content" + "\":");
  }

  lemma {:induction false} EncodeFilesCons(f: File, more: seq<File>)
    ensures EncodeFiles([f] + more) == EncodeFile(f) + if more == [] then "" else "," + EncodeFiles(more)
  {
    hide EncodeFile;
    if more == [] {
      assert [f] + more == [f];
    } else {
      var front, last := more[..|more| - 1], more[|more| - 1];
      var all := [f] + more;
      assert all[..|all| - 1] == [f] + front && all[|all| - 1] == last;
      EncodeFilesCons(f, front);
      if front == [] { assert more == [last]; }
    }
  }

  lemma {:induction false} ReadsFiles(files: seq<File>, rest: string)
    requires files != [] && (rest == "" || rest[0] != ',')
    ensures ReadFiles(EncodeFiles(files) + rest) == Some((files, rest))
  {
    hide EncodeFile, EncodeFiles, ReadFile;
    var f, more := files[0], files[1..];
    assert files == [f] + more;
    EncodeFilesCons(f, more);
    var s := EncodeFiles(files) + rest;
    if more == [] {
      assert s == EncodeFile(f) + rest && files == [f];
      ReadsFile(f, rest);
    } else {
      var after := "," + (EncodeFiles(more) + rest);
      assert s == EncodeFile(f) + after;
      ReadsFile(f, after);
      assert after[1..] == EncodeFiles(more) + rest && |after| <= |s|;
      ReadsFiles(more, rest);
    }
  }

  lemma EncodedFilesAreNotEmpty(files: seq<File>)
    requires files != []
    ensures EncodeFiles(files) + "]}" != "]}"
  {
    EncodeFilesCons(files[0], files[1..]);
    assert files == [files[0]] + files[1..];
    assert |EncodeFile(files[0])| > 0;
  }

  /** Reading an encoded bundle gives the bundle: root, paths and contents, each in its place. */
  lemma ReadingUndoesEncoding(b: Bundle)
    ensures ReadBundle(Encode(b)) == Some(b)
  {
    hide Quoted, After, ReadMember, ReadFiles, EncodeFiles;
    var list := EncodeFiles(b.files) + "]}";
    var more := ",\"files\":[" + list;
    var inside := "\"" + "root" + "\":" + Quoted(b.root) + more;
    assert Encode(b) == "{" + inside by { BundleInPieces(b); }
    ReadsAfter("{", inside);
    ReadsMember("root", b.root, more);
    ReadsAfter(",\"files\":[", list);
    if b.files == [] {
      NoFilesEncoded();
    } else {
      EncodedFilesAreNotEmpty(b.files);
      ReadsFiles(b.files, "]}");
    }
  }

  lemma NoFilesEncoded()
    ensures EncodeFiles([]) + "]}" == "]}"
  {
  }

  lemma BundleInPieces(b: Bundle)
    ensures Encode(b) == "{" + ("\"" + "root" + "\":" + Quoted(b.root) + (",\"files\":[" + (EncodeFiles(b.files) + "]}")))
  {
    hide Quoted, EncodeFiles;
    assert "{\"root\":" == "{" + ("\"" + "root" + "\":");
  }
}
