/**
 * The file-type filter of FileCollectorApp: the include and exclude sets the
 * application keeps in `_include_ext_set` and `_exclude_ext_set`, how they
 * are rebuilt from the settings, and the guard chain of should_process_file.
 */
module Filters {
  import opened Extensions

  /** The exclude list the application starts with. */
  const DEFAULT_EXCLUDE: string :=
    "png,jpg,jpeg,gif,webp,ico,pdf,zip,rar,exe,dll,obj,bin,svg,woff,woff2,ttf,eot"

  /** The seven common-type check boxes of the File Types tab. */
  datatype CommonTypes = CommonTypes(php: bool, py: bool, xml: bool, js: bool, css: bool, yml: bool, vcl: bool)

  /** ext is put into the include set by a checked common type; the YAML box
      stands for both "yml" and "yaml". */
  predicate CommonTypeChecked(types: CommonTypes, ext: string) {
    || (types.php && ext == "php")
    || (types.py && ext == "py")
    || (types.xml && ext == "xml")
    || (types.js && ext == "js")
    || (types.css && ext == "css")
    || (types.yml && (ext == "yml" || ext == "yaml"))
    || (types.vcl && ext == "vcl")
  }

  /** should_process_file: in all-files mode every file passes, whatever the
      sets hold; otherwise a file passes exactly when it has an extension
      that is not excluded and is included. An excluded extension loses even
      when it is also included, and an empty include set lets nothing pass. */
  function ShouldProcessFile(useAllFiles: bool, includeExts: set<string>, excludeExts: set<string>, name: string): (r: bool)
    ensures useAllFiles ==> r
    ensures !useAllFiles && Extension(name) == [] ==> !r
    ensures !useAllFiles && Extension(name) in excludeExts ==> !r
    ensures !useAllFiles && includeExts == {} ==> !r
    ensures r <==> useAllFiles || (Extension(name) != [] && Extension(name) !in excludeExts && Extension(name) in includeExts)
  {
    if useAllFiles then true
    else
      var ext := Extension(name);
      if ext == [] then false
      else if ext in excludeExts then false
      else if includeExts == {} then false
      else ext in includeExts
  }

  /** The part of FileCollectorApp that holds the filter settings and the
      two extension sets built from them. */
  class FileCollector {
    var useAllFiles: bool
    var commonTypes: CommonTypes
    var customInclude: string
    var customExclude: string
    var includeExtSet: set<string>
    var excludeExtSet: set<string>

    /** The sets agree with the current settings: the exclude set is the
        parsed custom exclude list, the include set the checked common types
        together with the parsed custom include list. */
    ghost predicate FilterSetsBuilt()
      reads this
    {
      && excludeExtSet == ParseExtensions(customExclude)
      && forall ext :: ext in includeExtSet <==> CommonTypeChecked(commonTypes, ext) || ext in ParseExtensions(customInclude)
    }

    /** The settings the application starts with: all files, Python,
        JavaScript and CSS checked, no custom includes, the default exclude
        list, and both sets empty. */
    constructor ()
      ensures useAllFiles
      ensures commonTypes == CommonTypes(false, true, false, true, true, false, false)
      ensures customInclude == [] && customExclude == DEFAULT_EXCLUDE
      ensures includeExtSet == {} && excludeExtSet == {}
    {
      useAllFiles := true;
      commonTypes := CommonTypes(false, true, false, true, true, false, false);
      customInclude := [];
      customExclude := DEFAULT_EXCLUDE;
      includeExtSet := {};
      excludeExtSet := {};
    }

    /** The extensions the checked common-type boxes stand for, gathered one
        box at a time. */
    method CheckedCommonTypes() returns (includeTypes: set<string>)
      ensures forall ext :: ext in includeTypes <==> CommonTypeChecked(commonTypes, ext)
    {
      includeTypes := {};
      if commonTypes.php { includeTypes := includeTypes + {"php"}; }
      if commonTypes.py { includeTypes := includeTypes + {"py"}; }
      if commonTypes.xml { includeTypes := includeTypes + {"xml"}; }
      if commonTypes.js { includeTypes := includeTypes + {"js"}; }
      if commonTypes.css { includeTypes := includeTypes + {"css"}; }
      if commonTypes.yml { includeTypes := includeTypes + {"yml", "yaml"}; }
      if commonTypes.vcl { includeTypes := includeTypes + {"vcl"}; }
    }

    /** _build_filter_sets: both sets rebuilt from the settings, which stay as they are. */
    method BuildFilterSets()
      modifies this`includeExtSet, this`excludeExtSet
      ensures FilterSetsBuilt()
    {
      excludeExtSet := ParseExtensions(customExclude);

      var includeTypes := CheckedCommonTypes();
      var customIncludes := ParseExtensions(customInclude);
      includeTypes := includeTypes + customIncludes;

      includeExtSet := includeTypes;
    }

    /** The set maintenance of update_file_type_state: rebuilt in filter
        mode, both emptied in all-files mode (the exclude set is parsed and
        then cleared straight away). */
    method UpdateFileTypeState()
      modifies this`includeExtSet, this`excludeExtSet
      ensures !useAllFiles ==> FilterSetsBuilt()
      ensures useAllFiles ==> includeExtSet == {} && excludeExtSet == {}
    {
      if !useAllFiles {
        BuildFilterSets();
      } else {
        includeExtSet := {};
        excludeExtSet := ParseExtensions(customExclude);
        excludeExtSet := {};
      }
    }

    /** The refresh generate_file does just before a run starts: rebuilt in
        filter mode, both emptied in all-files mode. */
    method RefreshFilterSets()
      modifies this`includeExtSet, this`excludeExtSet
      ensures !useAllFiles ==> FilterSetsBuilt()
      ensures useAllFiles ==> includeExtSet == {} && excludeExtSet == {}
    {
      if !useAllFiles {
        BuildFilterSets();
      } else {
        includeExtSet := {};
        excludeExtSet := {};
      }
    }
  }
}
