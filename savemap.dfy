/**
 * The map-saving CGI script cgi-bin/savemap.py. It always prints the
 * Content-Type header, then refuses a request without a map name or without
 * map data, and otherwise writes the first data value to the file named by
 * the first name value under the data/maps directory of the working
 * directory, replacing whatever the file held.
 *
 * The filesystem is a map from path to content; the working directory and
 * the parsed form fields are inputs. Opening or writing a file can fail in
 * Python (a missing directory, the permissions); those failures are outside
 * this model.
 */
module SaveMap {
  import opened Wrappers

  const Header := "Content-Type: text/html; charset=UTF-8\n\n"
  const NoName := "Please specify map name\n"
  const NoData := "Missing map data\n"
  const MapsDirectory := "/data/maps/"

  /** The form fields: every value given for each field name, in order. */
  type Form = map<string, seq<string>>

  /** How the script ends. */
  datatype Outcome =
    | Saved(path: string)   // the file was written
    | MissingName           // "name" is not a field of the form
    | MissingData           // "data" is not a field of the form
    | EmptyField            // a field without a value: form.getlist(...)[0] raises IndexError

  /** What one request prints and which file it writes. */
  datatype Response = Response(text: string, write: Option<(string, string)>, outcome: Outcome)

  /**
   * The script's effect on a request: the header comes first whatever the
   * request; a missing name is reported before a missing data field, and in
   * neither case is anything written; otherwise the file at the working
   * directory, "/data/maps/" and the first name gets the first data value.
   */
  function Request(cwd: string, form: Form): (r: Response)
    ensures Header <= r.text
    ensures "name" !in form ==> r == Response(Header + NoName, None, MissingName)
    ensures "name" in form && "data" !in form ==> r == Response(Header + NoData, None, MissingData)
    ensures r.write.Some? <==> r.outcome.Saved?
    ensures r.write.Some? <==>
              "name" in form && "data" in form && |form["name"]| > 0 && |form["data"]| > 0
    ensures r.write.Some? ==>
              r.text == Header && r.outcome.path == r.write.value.0 &&
              r.write.value == (cwd + MapsDirectory + form["name"][0], form["data"][0])
  {
    if "name" !in form then Response(Header + NoName, None, MissingName)
    else if "data" !in form then Response(Header + NoData, None, MissingData)
    else if |form["name"]| == 0 || |form["data"]| == 0 then Response(Header, None, EmptyField)
    else
      var fileName := cwd + MapsDirectory + form["name"][0];
      Response(Header, Some((fileName, form["data"][0])), Saved(fileName))
  }

  /** The filesystem after a response. */
  function Apply(files: map<string, string>, r: Response): (after: map<string, string>)
    ensures r.write.None? ==> after == files
    ensures r.write.Some? ==> r.write.value.0 in after && after[r.write.value.0] == r.write.value.1
    ensures forall p :: p in files && (r.write.None? || p != r.write.value.0) ==> p in after && after[p] == files[p]
    ensures r.write.Some? ==> after.Keys == files.Keys + {r.write.value.0}
  {
    if r.write.Some? then files[r.write.value.0 := r.write.value.1] else files
  }

  /** Saving the same map twice leaves the same files as saving it once. */
  lemma SaveIdempotent(files: map<string, string>, cwd: string, form: Form)
    ensures var r := Request(cwd, form); Apply(Apply(files, r), r) == Apply(files, r)
  {
  }

  /** A later save of the same name replaces an earlier one, whatever the earlier data. */
  lemma LastSaveWins(files: map<string, string>, cwd: string, first: Form, second: Form)
    requires Request(cwd, first).write.Some? && Request(cwd, second).write.Some?
    requires first["name"][0] == second["name"][0]
    ensures Apply(Apply(files, Request(cwd, first)), Request(cwd, second)) == Apply(files, Request(cwd, second))
  {
    assert Request(cwd, first).write.value.0 == Request(cwd, second).write.value.0;
  }

  /** The script run on a filesystem and an output stream. */
  class Server {
    const cwd: string
    var files: map<string, string>
    var output: string

    constructor (cwd: string, files: map<string, string>)
      ensures this.cwd == cwd && this.files == files && output == []
    {
      this.cwd := cwd;
      this.files := files;
      output := [];
    }

    /** One run of savemap.py on a parsed form. */
    method HandleRequest(form: Form) returns (outcome: Outcome)
      modifies this`files, this`output
      ensures outcome == Request(cwd, form).outcome
      ensures output == old(output) + Request(cwd, form).text
      ensures files == Apply(old(files), Request(cwd, form))
    {
      output := output + Header;
      if "name" !in form {
        output := output + NoName;
        return MissingName;
      }
      if "data" !in form {
        output := output + NoData;
        return MissingData;
      }
      var names, values := form["name"], form["data"];
      if |names| == 0 || |values| == 0 {
        return EmptyField;
      }
      var fileName := cwd + MapsDirectory + names[0];
      var content := values[0];
      files := files[fileName := content];
      outcome := Saved(fileName);
    }
  }
}
