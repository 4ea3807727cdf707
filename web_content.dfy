/**
 * The website content of the web server: the templates and static files
 * it serves, each under the URL path derived from the path of the file it
 * was loaded from (web/content.go, where the two maps are package
 * variables, and webserver/content.go, where they are fields of the
 * `Webserver`; the two files load in the same way). Reading and parsing
 * files is not modelled: a template is kept as the file it was parsed
 * from, and a static file's content is a parameter.
 */
module WebContent {
  import opened Results
  import opened GoStd

  type Bytes = seq<bv8>

  datatype Template = Template(file: string, formatName: string)

  datatype StaticFile = StaticFile(content: Bytes)

  /** The URL path of a template: its file path without the extension. */
  function TemplateKey(path: string): (key: string)
    ensures key + Ext(path) == path
  {
    path[..|path| - |Ext(path)|]
  }

  /** An HTML page, by the extension of its file. */
  predicate IsHTML(path: string)
  {
    Ext(path) == ".htm" || Ext(path) == ".html"
  }

  /** The URL path of a static file: an HTML page loses its extension, any other file keeps its path. */
  function StaticKey(path: string): (key: string)
    ensures IsHTML(path) ==> key + Ext(path) == path
    ensures !IsHTML(path) ==> key == path
  {
    if IsHTML(path) then TemplateKey(path) else path
  }

  /** The extension of "<name>.<ext>" where neither part has a '.' or '/' is ".<ext>". */
  lemma {:induction false} ExtOfDotted(name: string, ext: string)
    requires '.' !in ext && '/' !in ext
    ensures Ext(name + "." + ext) == "." + ext
    decreases |ext|
  {
    var path := name + "." + ext;
    if ext != [] {
      var last := ext[|ext| - 1];
      var shorter := ext[..|ext| - 1];
      assert path[..|path| - 1] == name + "." + shorter;
      assert path[|path| - 1] == last;
      ExtOfDotted(name, shorter);
      assert ext == shorter + [last];
    } else {
      assert path[|path| - 1] == '.';
    }
  }

  class Content {
    /** The templates, by URL path. */
    var templates: map<string, Template>
    /** The static files, by URL path. */
    var staticFiles: map<string, StaticFile>

    /** Both maps start empty. */
    constructor()
      ensures templates == map[] && staticFiles == map[]
    {
      templates := map[];
      staticFiles := map[];
    }

    /**
     * LoadTemplate: the template parsed from rootPath+path is stored under
     * the path without its extension, with the format it shows; an entry
     * already at that key is replaced and no other entry changes.
     */
    method LoadTemplate(rootPath: string, path: string, formatName: string)
      modifies this
      ensures templates == old(templates)[TemplateKey(path) := Template(rootPath + path, formatName)]
      ensures staticFiles == old(staticFiles)
    {
      templates := templates[TrimSuffix(path, Ext(path)) := Template(rootPath + path, formatName)];
    }

    /**
     * LoadStaticFile: the file's content is stored under its path, without
     * the extension for an ".htm" or ".html" file.
     */
    method LoadStaticFile(rootPath: string, path: string, content: Bytes)
      modifies this
      ensures staticFiles == old(staticFiles)[StaticKey(path) := StaticFile(content)]
      ensures templates == old(templates)
    {
      var ext := TrimPrefix(Ext(path), ".");
      if ext == "htm" || ext == "html" {
        assert IsHTML(path);
        staticFiles := staticFiles[TrimSuffix(path, Ext(path)) := StaticFile(content)];
      } else {
        assert Ext(path) == "" || Ext(path)[0] == '.';
        assert !IsHTML(path);
        staticFiles := staticFiles[path := StaticFile(content)];
      }
    }

    /** GetTemplate: the template stored at exactly this URL path. */
    function GetTemplate(path: string): (r: Option<Template>)
      reads this
      ensures r.Some? <==> path in templates
      ensures r.Some? ==> r.value == templates[path]
    {
      if path in templates then Some(templates[path]) else None
    }

    /** GetFile: the static file stored at exactly this URL path. */
    function GetFile(path: string): (r: Option<StaticFile>)
      reads this
      ensures r.Some? <==> path in staticFiles
      ensures r.Some? ==> r.value == staticFiles[path]
    {
      if path in staticFiles then Some(staticFiles[path]) else None
    }
  }

  /** The key of "<name>.<ext>", where the extension has no '.' or '/', is "<name>". */
  lemma TemplateKeyOfDotted(path: string, name: string, ext: string)
    requires path == name + "." + ext
    requires '.' !in ext && '/' !in ext
    ensures TemplateKey(path) == name
  {
    ExtOfDotted(name, ext);
    assert |Ext(path)| == |ext| + 1;
    assert path[..|name|] == name;
  }

  /** The program's home page file is served at "/index". */
  lemma IndexKey()
    ensures StaticKey("/index.html") == "/index"
  {
    TemplateKeyOfDotted("/index.html", "/index", "html");
    ExtOfDotted("/index", "html");
  }

  /** The program's template for listing authors is served at "/list/author". */
  lemma ListAuthorKey()
    ensures TemplateKey("/list/author.tmpl") == "/list/author"
  {
    TemplateKeyOfDotted("/list/author.tmpl", "/list/author", "tmpl");
  }
}
