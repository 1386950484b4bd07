/**
  Upload file-name safety: the extension test applied when a post's image is
  saved, the stored name, and the test applied when a file is served back.
 */
module Uploads {
  import opened Text

  /** Extensions refused on serving whatever the allow-list says: they would run in the browser. */
  predicate IsActiveContent(ext: string)
  {
    ext == "html" || ext == "htm" || ext == "js"
  }

  /** Hexadecimal digits as `secrets.token_hex` writes them. */
  predicate IsHexToken(token: string)
  {
    forall i :: 0 <= i < |token| ==> token[i] in "0123456789abcdef"
  }

  /**
    The lower-cased text after the last dot of `name`, or `""` when `name` has
    no dot.
   */
  function Extension(name: string): (ext: string)
    ensures '.' !in ext
    ensures forall i :: 0 <= i < |ext| ==> !IsUpper(ext[i])
    ensures '.' !in name ==> ext == ""
  {
    if '.' in name then
      var tail := AfterLast(name, '.');
      LowerHasDot(tail);
      Lower(tail)
    else ""
  }

  /**
    The extension is what follows a dot of the name that has no dot after it,
    lower-cased: the last piece of `name.rsplit(".", 1)`, then `.lower()`.
   */
  lemma ExtensionAfterLastDot(name: string)
    requires '.' in name
    ensures exists k :: 0 <= k < |name| && name[k] == '.' && '.' !in name[k + 1..]
                        && Extension(name) == Lower(name[k + 1..])
  {
    var tail := AfterLast(name, '.');
    var k := |name| - |tail| - 1;
    assert name[k + 1..] == tail;
  }

  /** An image is accepted on upload exactly when its extension is allow-listed. */
  predicate AcceptedUpload(sanitized: string, allowed: set<string>)
  {
    Extension(sanitized) in allowed
  }

  /** The name an accepted image is saved and recorded under: `<token>_<sanitised name>`. */
  function StoredName(token: string, sanitized: string): (name: string)
    ensures |name| == |token| + 1 + |sanitized|
    ensures name[..|token|] == token && name[|token|] == '_' && name[|token| + 1..] == sanitized
  {
    token + "_" + sanitized
  }

  /**
    The serving guard: refuse names whose lower-case form ends in an active-content
    suffix, then refuse names whose lower-case last-dot extension is not allow-listed.
   */
  function MayServe(filename: string, allowed: set<string>): (ok: bool)
    ensures EndsWith(Lower(filename), ".html") ==> !ok
    ensures EndsWith(Lower(filename), ".htm") ==> !ok
    ensures EndsWith(Lower(filename), ".js") ==> !ok
    ensures ok <==> Extension(filename) in allowed && !IsActiveContent(Extension(filename))
  {
    var lower := Lower(filename);
    ServeCheckMatchesExtension(filename);
    if EndsWith(lower, ".html") || EndsWith(lower, ".htm") || EndsWith(lower, ".js") then false
    else
      var ext := if '.' in lower then AfterLast(lower, '.') else "";
      ext in allowed
  }

  /** On the lower-cased name, the serve-side extension is `Extension`. */
  lemma ServeSideExtension(filename: string)
    ensures (if '.' in Lower(filename) then AfterLast(Lower(filename), '.') else "") == Extension(filename)
  {
    LowerHasDot(filename);
    if '.' in filename {
      LowerAfterLastDot(filename);
    }
  }

  /** For a dot-free `e`, ending in `"." + e` is having `e` as the last-dot extension. */
  lemma DottedSuffix(s: string, e: string)
    requires '.' !in e
    ensures EndsWith(s, "." + e) <==> '.' in s && AfterLast(s, '.') == e
  {
    if EndsWith(s, "." + e) {
      EndsWithDotted(s, e);
    }
    if '.' in s && AfterLast(s, '.') == e {
      DottedEndsWith(s);
    }
  }

  /**
    On the lower-cased name, the block-list test is the same as asking whether the
    extension is an active-content one, and the serve-side extension is `Extension`.
   */
  lemma ServeCheckMatchesExtension(filename: string)
    ensures (if '.' in Lower(filename) then AfterLast(Lower(filename), '.') else "") == Extension(filename)
    ensures EndsWith(Lower(filename), ".html") || EndsWith(Lower(filename), ".htm") || EndsWith(Lower(filename), ".js")
            <==> IsActiveContent(Extension(filename))
  {
    SuffixIsExtension(filename, "html");
    assert "." + "html" == ".html";
    SuffixIsExtension(filename, "htm");
    assert "." + "htm" == ".htm";
    SuffixIsExtension(filename, "js");
    assert "." + "js" == ".js";
    ServeSideExtension(filename);
  }

  /** For a dot-free `e`, the lower-cased name ends in `"." + e` exactly when `e` is its extension. */
  lemma SuffixIsExtension(filename: string, e: string)
    requires '.' !in e && e != ""
    ensures EndsWith(Lower(filename), "." + e) <==> Extension(filename) == e
  {
    ServeSideExtension(filename);
    DottedSuffix(Lower(filename), e);
  }

  /** Prefixing a dot-free token and an underscore leaves the extension as it was. */
  lemma {:induction false} StoredNameKeepsExtension(token: string, sanitized: string)
    requires '.' !in token
    ensures Extension(StoredName(token, sanitized)) == Extension(sanitized)
  {
    var name := StoredName(token, sanitized);
    var prefix := token + "_";
    assert name == prefix + sanitized;
    assert '.' !in prefix;
    assert '.' in name <==> '.' in sanitized by {
      if '.' in name {
        var k :| 0 <= k < |name| && name[k] == '.';
        assert k >= |prefix|;
        assert sanitized[k - |prefix|] == '.';
      }
      if '.' in sanitized {
        var k :| 0 <= k < |sanitized| && sanitized[k] == '.';
        assert name[k + |prefix|] == '.';
      }
    }
    if '.' in sanitized {
      var tail := AfterLast(sanitized, '.');
      assert name[|name| - |tail| - 1] == '.';
      AfterLastUnique(name, '.', tail);
    }
  }

  /**
    An accepted upload, served back under its stored name, is served exactly when
    its extension is not an active-content one.
   */
  lemma UploadThenServe(token: string, sanitized: string, allowed: set<string>)
    requires IsHexToken(token)
    requires AcceptedUpload(sanitized, allowed)
    ensures MayServe(StoredName(token, sanitized), allowed) <==> !IsActiveContent(Extension(sanitized))
  {
    StoredNameKeepsExtension(token, sanitized);
  }
}
