/** `detectFileType`: a file is text when the part of its name from the
    last '.' on, lower-cased, is one of a fixed list of extensions. */
module FileType {
  import Text

  datatype FileKind = TextFile | BinaryFile

  /** The extensions treated as text, each with its leading '.'. */
  const TextExtensions: seq<string> :=
    [".txt", ".json", ".xml", ".html", ".css", ".js", ".ts", ".jsx", ".tsx",
     ".md", ".yaml", ".yml", ".csv", ".log"]

  /** `s.lastIndexOf(c)`: the last position of `c`, or -1. */
  function LastIndexOf(s: string, c: char): (r: int)
    ensures -1 <= r < |s|
    ensures r == -1 <==> c !in s
    ensures r >= 0 ==> s[r] == c && c !in s[r + 1..]
  {
    if s == [] then -1
    else if s[|s| - 1] == c then |s| - 1
    else
      var r := LastIndexOf(s[..|s| - 1], c);
      assert s[..|s| - 1] + [s[|s| - 1]] == s;
      r
  }

  /** `name.substring(name.lastIndexOf('.'))`; with no '.', `substring(-1)`
      reads as `substring(0)`, the whole name. */
  function Extension(name: string): (e: string)
    ensures |e| <= |name| && e == name[|name| - |e|..]
    ensures '.' !in name ==> e == name
    ensures '.' in name ==> |e| >= 1 && e[0] == '.' && '.' !in e[1..]
  {
    var i := LastIndexOf(name, '.');
    if i < 0 then name else name[i..]
  }

  /** `detectFileType`: only a name with a '.' can be text. */
  function DetectFileType(name: string): (k: FileKind)
    ensures k == TextFile ==> '.' in name
  {
    var lowered := Text.Lower(Extension(name));
    if lowered in TextExtensions then
      ListedShape(lowered);
      Text.LowerKeepsDots(Extension(name));
      TextFile
    else BinaryFile
  }

  /** The '.' at `i` with no '.' after it is the one `lastIndexOf` finds. */
  lemma {:induction false} LastDot(name: string, i: nat)
    requires i < |name| && name[i] == '.' && '.' !in name[i + 1..]
    ensures LastIndexOf(name, '.') == i
    ensures Extension(name) == name[i..]
  {
    if i < |name| - 1 {
      assert name[|name| - 1] == name[i + 1..][|name| - 2 - i];
      assert name[..|name| - 1][i + 1..] == name[i + 1..|name| - 1];
      LastDot(name[..|name| - 1], i);
    }
  }

  /** A name is text exactly when it has a '.' after which no '.' follows and
      the lower-cased rest from that '.' is a listed extension. */
  lemma DetectFileTypeSpec(name: string)
    ensures DetectFileType(name) == TextFile <==>
              exists i :: 0 <= i < |name| && name[i] == '.' && '.' !in name[i + 1..]
                          && Text.Lower(name[i..]) in TextExtensions
  {
    forall i | 0 <= i < |name| && name[i] == '.' && '.' !in name[i + 1..]
      ensures Extension(name) == name[i..]
    {
      LastDot(name, i);
    }
    if '.' !in name {
      NoDotIsBinary(name);
    }
  }

  /** A name without a '.' is binary: the whole name is compared, and every
      listed extension contains a '.'. */
  lemma NoDotIsBinary(name: string)
    requires '.' !in name
    ensures DetectFileType(name) == BinaryFile
  {
    Text.LowerKeepsDots(name);
    var ext := Text.Lower(name);
    assert Extension(name) == name;
    forall i | 0 <= i < |ext| ensures ext[i] != '.' {
      assert name[i] in name;
    }
    forall e | e in TextExtensions ensures e != ext {
      assert e[0] == '.';
    }
  }

  /** Matching ignores case: "X.TXT" is text. */
  lemma UpperCaseExtension()
    ensures DetectFileType("X.TXT") == TextFile
  {
    LastDot("X.TXT", 1);
    assert Text.Lower(".TXT") == ".txt";
  }

  /** Only the part after the last '.' counts: "a.txt.zip" is binary. */
  lemma OnlyLastSuffix()
    ensures DetectFileType("a.txt.zip") == BinaryFile
  {
    LastDot("a.txt.zip", 5);
    UnlistedExtensions();
    assert Text.Lower(".zip") == ".zip";
  }

  /** Every listed extension is lower-case and has its only '.' in front. */
  lemma ListedShape(e: string)
    requires e in TextExtensions
    ensures |e| >= 2 && e[0] == '.' && '.' !in e[1..] && Text.Lower(e) == e
  {
  }

  /** Any name that ends in a listed extension is text, whatever precedes it. */
  lemma ListedIsText(name: string, i: nat)
    requires i <= |name| && name[i..] in TextExtensions
    ensures DetectFileType(name) == TextFile
  {
    ListedShape(name[i..]);
    assert name[i + 1..] == name[i..][1..];
    LastDot(name, i);
  }

  /** The documents the repository's tests classify as text. */
  lemma TextExamples()
    ensures DetectFileType("test.txt") == TextFile
    ensures DetectFileType("data.json") == TextFile
  {
    ListedIsText("test.txt", 4);
    ListedIsText("data.json", 4);
  }

  /** The web sources the repository's tests classify as text. */
  lemma SourceTextExamples()
    ensures DetectFileType("style.css") == TextFile
    ensures DetectFileType("script.js") == TextFile
  {
    ListedIsText("style.css", 5);
    ListedIsText("script.js", 6);
  }

  /** ".png", ".pdf" and ".zip" are not listed. */
  lemma UnlistedExtensions()
    ensures ".png" !in TextExtensions && ".pdf" !in TextExtensions && ".zip" !in TextExtensions
  {
    forall e | e in TextExtensions ensures e != ".png" && e != ".pdf" && e != ".zip" {
      assert |e| != 4 || (e[1] != 'p' && e[1] != 'z');
    }
  }

  /** The names the repository's tests classify as binary. */
  lemma BinaryExamples()
    ensures DetectFileType("image.png") == BinaryFile
    ensures DetectFileType("document.pdf") == BinaryFile
    ensures DetectFileType("archive.zip") == BinaryFile
  {
    UnlistedExtensions();
    LastDot("image.png", 5);
    LastDot("document.pdf", 8);
    LastDot("archive.zip", 7);
    assert Text.Lower(".png") == ".png" && Text.Lower(".pdf") == ".pdf" && Text.Lower(".zip") == ".zip";
  }
}
