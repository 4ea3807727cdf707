/**
 * The request handler of the root boocat package (server.go). A path with
 * a template is served only when the last element of the path, without
 * its extension, names a registered format; the template is then written
 * with no data. Otherwise the static file for the path is written, or the
 * answer is 404. The templates and static files are parameters (loading
 * them is outside this file), and the formats are the registry of the
 * formats package.
 */
module RootServer {
  import opened GoStd
  import Formats

  /** The name a request dispatches on: the last element of the path without its extension. */
  function Stem(path: string): (name: string)
    ensures name + Ext(path) == Base(path)
  {
    ExtIsSuffixOfBase(path);
    var base := Base(path);
    assert base == base[..|base| - |Ext(path)|] + base[|base| - |Ext(path)|..];
    base[..|base| - |Ext(path)|]
  }

  /** What requestHandler writes. */
  datatype Outcome<T, F> =
    | InternalError             // 500: the template does not end with a format's name
    | WriteTemplate(template: T) // the template, executed with nil data
    | WriteFile(file: F)
    | NotFound

  /**
   * requestHandler: the template for the path first, refused with 500 when
   * its stem is not a format; then the static file; then 404.
   */
  function RequestHandler<T, F>(path: string, templates: map<string, T>, files: map<string, F>,
                                registry: Formats.Registry): (r: Outcome<T, F>)
    reads registry
    ensures path in templates ==>
              (r == WriteTemplate(templates[path]) <==> Stem(path) in registry.formats) &&
              (r == InternalError <==> Stem(path) !in registry.formats)
    ensures path !in templates && path in files ==> r == WriteFile(files[path])
    ensures r == NotFound <==> path !in templates && path !in files
  {
    if path in templates then
      var (_, found) := registry.Get(Stem(path));
      if !found then InternalError else WriteTemplate(templates[path])
    else if path in files then WriteFile(files[path])
    else NotFound
  }

  /** A path whose last element has no '.' has no extension. */
  lemma {:induction false} NoExtension(dir: string, name: string)
    requires '/' !in name && '.' !in name
    ensures Ext(dir + "/" + name) == ""
    decreases |name|
  {
    var path := dir + "/" + name;
    if name != [] {
      var shorter := name[..|name| - 1];
      assert path[..|path| - 1] == dir + "/" + shorter;
      NoExtension(dir, shorter);
    } else {
      assert path[|path| - 1] == '/';
    }
  }

  /** The last element of "<dir>/<name>", where name has no '/', is name. */
  lemma {:induction false} LastElement(dir: string, name: string)
    requires '/' !in name
    ensures AfterLastSlash(dir + "/" + name) == name
    decreases |name|
  {
    var path := dir + "/" + name;
    if name != [] {
      var shorter := name[..|name| - 1];
      assert path[..|path| - 1] == dir + "/" + shorter;
      LastElement(dir, shorter);
      assert name == shorter + [name[|name| - 1]];
    } else {
      assert path[|path| - 1] == '/';
    }
  }

  /**
   * A URL path whose last element is a plain name, such as "/edit/author",
   * dispatches on that name.
   */
  lemma StemOfPlainName(dir: string, name: string)
    requires name != [] && '/' !in name && '.' !in name
    ensures Stem(dir + "/" + name) == name
  {
    var path := dir + "/" + name;
    NoExtension(dir, name);
    LastElement(dir, name);
    assert path[|path| - 1] == name[|name| - 1];
    assert TrimTrailingSlashes(path) == path;
  }

  /** With a template for the path, no static file is ever written, whatever the formats. */
  lemma TemplateShadowsFile<T, F>(path: string, templates: map<string, T>, files: map<string, F>,
                                  registry: Formats.Registry)
    requires path in templates
    ensures !RequestHandler(path, templates, files, registry).WriteFile?
    ensures !RequestHandler(path, templates, files, registry).NotFound?
  {
  }
}
