/** The editor's language catalogue and starter templates, and the lookups the
    editor page makes in them. */
module Languages {
  import opened Common

  datatype Language = Language(id: string, name: string, version: string, extension: string)

  /** The languages the editor offers, in menu order. */
  const Catalog: seq<Language> := [
    Language("javascript", "JavaScript", "18.15.0", "js"),
    Language("python", "Python", "3.10.0", "py"),
    Language("java", "Java", "15.0.2", "java"),
    Language("cpp", "C++", "10.2.0", "cpp"),
    Language("c", "C", "10.2.0", "c"),
    Language("typescript", "TypeScript", "5.0.3", "ts"),
    Language("go", "Go", "1.16.2", "go"),
    Language("rust", "Rust", "1.68.2", "rs")
  ]

  /** `languages.find(l => l.id === id)`: the first entry with that id. */
  function FindIn(languages: seq<Language>, id: string): (r: Option<Language>)
    ensures r.Some? ==> r.value in languages && r.value.id == id
    ensures r.None? <==> forall i :: 0 <= i < |languages| ==> languages[i].id != id
  {
    if languages == [] then None
    else if languages[0].id == id then Some(languages[0])
    else
      var r := FindIn(languages[1..], id);
      assert r.None? ==> forall i :: 1 <= i < |languages| ==> languages[i].id == languages[1..][i - 1].id;
      r
  }

  /** The catalogue entry with that id; no two entries share an id, and every
      entry has a starter template. */
  function Find(id: string): (r: Option<Language>)
    ensures r.Some? ==> r.value in Catalog && r.value.id == id
    ensures r.None? <==> forall i :: 0 <= i < |Catalog| ==> Catalog[i].id != id
  {
    FindIn(Catalog, id)
  }

  /** The starter templates, `LANGUAGE_TEMPLATES`. */
  const JavaScriptTemplate: string := "// JavaScript - Start coding here\nconsole.log(\"Hello, SyncCode!\");\n"
  const PythonTemplate: string := "# Python - Start coding here\nprint(\"Hello, SyncCode!\")\n"
  const JavaTemplate: string := "// Java - Start coding here\npublic class Main {\n    public static void main(String[] args) {\n        System.out.println(\"Hello, SyncCode!\");\n    }\n}\n"
  const CppTemplate: string := "// C++ - Start coding here\n#include <iostream>\nusing namespace std;\n\nint main() {\n    cout << \"Hello, SyncCode!\" << endl;\n    return 0;\n}\n"
  const CTemplate: string := "// C - Start coding here\n#include <stdio.h>\n\nint main() {\n    printf(\"Hello, SyncCode!\\n\");\n    return 0;\n}\n"
  const TypeScriptTemplate: string := "// TypeScript - Start coding here\nconst greeting: string = \"Hello, SyncCode!\";\nconsole.log(greeting);\n"
  const GoTemplate: string := "// Go - Start coding here\npackage main\n\nimport \"fmt\"\n\nfunc main() {\n    fmt.Println(\"Hello, SyncCode!\")\n}\n"
  const RustTemplate: string := "// Rust - Start coding here\nfn main() {\n    println!(\"Hello, SyncCode!\");\n}\n"

  /** `LANGUAGE_TEMPLATES[id]`. */
  function Template(id: string): (t: Option<string>)
    ensures t.Some? ==> t.value != ""
  {
    match id
    case "javascript" => Some(JavaScriptTemplate)
    case "python" => Some(PythonTemplate)
    case "java" => Some(JavaTemplate)
    case "cpp" => Some(CppTemplate)
    case "c" => Some(CTemplate)
    case "typescript" => Some(TypeScriptTemplate)
    case "go" => Some(GoTemplate)
    case "rust" => Some(RustTemplate)
    case _ => None
  }

  /** The menu and the templates cover the same languages: an id has a starter
      template exactly when it is in the catalogue. */
  lemma TemplateIffListed(id: string)
    ensures Template(id).Some? <==> Find(id).Some?
  {
    var ids := ["javascript", "python", "java", "cpp", "c", "typescript", "go", "rust"];
    assert |ids| == |Catalog| && forall i :: 0 <= i < |Catalog| ==> Catalog[i].id == ids[i];
    assert Template(id).Some? <==> id in ids;
  }

  /** `LANGUAGE_TEMPLATES[id] || ''`. */
  function TemplateOrEmpty(id: string): (code: string)
    ensures Template(id).Some? ==> code == Template(id).value
    ensures Template(id).None? ==> code == ""
  {
    match Template(id)
    case Some(t) => t
    case None => ""
  }

  /** `langConfig?.extension || 'txt'`, the download file's extension. */
  function DownloadExtension(language: string): (ext: string)
    ensures Find(language).Some? ==> ext == Find(language).value.extension
    ensures Find(language).None? ==> ext == "txt"
  {
    match Find(language)
    case Some(l) => OrElse(l.extension, "txt")
    case None => "txt"
  }

  /** The extension falls back to 'txt' exactly when the language is not in the
      catalogue: no catalogue extension is empty or 'txt'. */
  lemma DownloadExtensionFallback(language: string)
    ensures DownloadExtension(language) == "txt" <==> Find(language).None?
    ensures DownloadExtension(language) != ""
  {
    var r := Find(language);
    if r.Some? {
      assert r.value in Catalog;
    }
  }

  /** `synccode.<extension>`. */
  function DownloadFileName(language: string): (file: string)
    ensures |file| > |"synccode."| && file[..|"synccode."|] == "synccode."
    ensures Find(language).None? ==> file == "synccode.txt"
  {
    "synccode." + DownloadExtension(language)
  }

  /** `langConfig?.version || '*'`, the version the run request names. */
  function RunVersion(language: string): (v: string)
    ensures Find(language).Some? ==> v == Find(language).value.version
    ensures Find(language).None? ==> v == "*"
  {
    match Find(language)
    case Some(l) => OrElse(l.version, "*")
    case None => "*"
  }
}
