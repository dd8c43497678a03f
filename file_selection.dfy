/**
 * The client's file checks (script.js): the 5 MiB gate when files are picked
 * (handleFileSelection), removing one picked file (removeFileFromInput), counting the
 * files to read (getTotalFileCount) and the checks before storing (validateFiles).
 */
module FileSelection {

  /** A picked file as the browser describes it; `mime` is the File's `type`. */
  datatype File = File(name: string, size: nat, mime: string)

  /** The record stored for a file that was read: name, size and type, data URL, time. */
  datatype Descriptor = Descriptor(file: File, data: string, uploadDate: string)

  /** The four file inputs of the form, in the order the code walks them. */
  datatype Field = Passport | Cv | Certificates | OtherDocuments

  const FileFields: seq<Field> := [Passport, Cv, Certificates, OtherDocuments]

  /** One list per file input. */
  datatype Categories<T> = Categories(passport: seq<T>, cv: seq<T>, certificates: seq<T>, otherDocuments: seq<T>)
  {
    function Of(f: Field): seq<T>
    {
      match f
      case Passport => passport
      case Cv => cv
      case Certificates => certificates
      case OtherDocuments => otherDocuments
    }

    function With(f: Field, xs: seq<T>): (c: Categories<T>)
      ensures c.Of(f) == xs
      ensures forall g | g != f :: c.Of(g) == Of(g)
    {
      match f
      case Passport => this.(passport := xs)
      case Cv => this.(cv := xs)
      case Certificates => this.(certificates := xs)
      case OtherDocuments => this.(otherDocuments := xs)
    }

    /** Every list, in the key order passport, cv, certificates, otherDocuments. */
    function All(): seq<T>
    {
      passport + cv + certificates + otherDocuments
    }
  }

  function NoFiles<T>(): Categories<T>
  {
    Categories([], [], [], [])
  }

  /** `5 * 1024 * 1024`: the largest accepted size in bytes. */
  const MaxFileSize: nat := 5 * 1024 * 1024

  datatype FileError = PassportRequired | TooLarge(name: string)

  function Message(e: FileError): string
  {
    match e
    case PassportRequired => "Pasaport/Kimlik fotoğrafı zorunludur."
    case TooLarge(name) => name + " çok büyük (Max: 5MB)"
  }

  /** One TooLarge message per file over the limit, in list order. */
  function OversizeErrors(files: seq<File>): seq<FileError>
  {
    if files == [] then []
    else (if files[0].size > MaxFileSize then [TooLarge(files[0].name)] else []) + OversizeErrors(files[1..])
  }

  lemma {:induction false} OversizeErrorsAppend(a: seq<File>, b: seq<File>)
    ensures OversizeErrors(a + b) == OversizeErrors(a) + OversizeErrors(b)
  {
    if a == [] {
      assert a + b == b;
    } else {
      assert (a + b)[0] == a[0];
      assert (a + b)[1..] == a[1..] + b;
      OversizeErrorsAppend(a[1..], b);
    }
  }

  /** No message at all exactly when no file is over the limit; a file of exactly 5 MiB passes. */
  lemma {:induction false} OversizeErrorsEmpty(files: seq<File>)
    ensures OversizeErrors(files) == [] <==> forall k | 0 <= k < |files| :: files[k].size <= MaxFileSize
  {
    if files != [] {
      OversizeErrorsEmpty(files[1..]);
      assert forall k | 1 <= k < |files| :: files[k] == files[1..][k - 1];
    }
  }

  /** The files at or under the limit, in list order. */
  function Fitting(files: seq<File>): seq<File>
  {
    if files == [] then []
    else (if files[0].size > MaxFileSize then [] else [files[0]]) + Fitting(files[1..])
  }

  /** Without a message, every picked file is accepted, in order. */
  lemma {:induction false} FittingAllWithoutErrors(files: seq<File>)
    ensures OversizeErrors(files) == [] ==> Fitting(files) == files
  {
    if files != [] {
      FittingAllWithoutErrors(files[1..]);
      assert files == [files[0]] + files[1..];
    }
  }

  lemma {:induction false} FittingAppend(a: seq<File>, b: seq<File>)
    ensures Fitting(a + b) == Fitting(a) + Fitting(b)
  {
    if a == [] {
      assert a + b == b;
    } else {
      var kept := if a[0].size > MaxFileSize then [] else [a[0]];
      assert (a + b)[0] == a[0];
      assert (a + b)[1..] == a[1..] + b;
      assert Fitting(a + b) == kept + Fitting(a[1..] + b);
      FittingAppend(a[1..], b);
      assert kept + (Fitting(a[1..]) + Fitting(b)) == (kept + Fitting(a[1..])) + Fitting(b);
    }
  }

  /** What one more file adds to both lists. */
  lemma ScreenStep(files: seq<File>, i: nat)
    requires i < |files|
    ensures OversizeErrors(files[..i + 1]) ==
            OversizeErrors(files[..i]) + (if files[i].size > MaxFileSize then [TooLarge(files[i].name)] else [])
    ensures Fitting(files[..i + 1]) == Fitting(files[..i]) + (if files[i].size > MaxFileSize then [] else [files[i]])
  {
    assert files[..i + 1] == files[..i] + [files[i]];
    assert [files[i]][1..] == [];
    OversizeErrorsAppend(files[..i], [files[i]]);
    FittingAppend(files[..i], [files[i]]);
  }

  /** The forEach of handleFileSelection: sorts the picked files into accepted ones and messages. */
  method ScreenSelection(files: seq<File>) returns (valid: seq<File>, errors: seq<FileError>)
    ensures errors == OversizeErrors(files)
    ensures valid == Fitting(files)
    ensures errors == [] ==> valid == files
  {
    valid, errors := [], [];
    var i := 0;
    while i < |files|
      invariant 0 <= i <= |files|
      invariant errors == OversizeErrors(files[..i])
      invariant valid == Fitting(files[..i])
    {
      ScreenStep(files, i);
      if files[i].size > MaxFileSize {
        errors := errors + [TooLarge(files[i].name)];
      } else {
        valid := valid + [files[i]];
      }
      i := i + 1;
    }
    assert files[..i] == files;
    FittingAllWithoutErrors(files);
  }

  /**
   * The loop of removeFileFromInput: every file except the one at `indexToRemove`, in
   * order; an index out of range removes nothing.
   */
  method WithoutIndex(files: seq<File>, indexToRemove: int) returns (kept: seq<File>)
    ensures 0 <= indexToRemove < |files| ==>
      kept == files[..indexToRemove] + files[indexToRemove + 1..] && |kept| == |files| - 1
    ensures !(0 <= indexToRemove < |files|) ==> kept == files
  {
    kept := [];
    var index := 0;
    while index < |files|
      invariant 0 <= index <= |files|
      invariant 0 <= indexToRemove < index ==>
        kept == files[..indexToRemove] + files[indexToRemove + 1..index]
      invariant !(0 <= indexToRemove < index) ==> kept == files[..index]
    {
      if index != indexToRemove {
        kept := kept + [files[index]];
      }
      index := index + 1;
    }
    assert files[..|files|] == files;
  }

  /** A file input of the form: what it holds and the preview list shown under it. */
  class FileInput {
    var files: seq<File>
    var preview: seq<File>

    constructor (picked: seq<File>)
      ensures files == picked && preview == []
    {
      files, preview := picked, [];
    }

    /**
     * handleFileSelection: if any picked file is over the limit the input is cleared and
     * the errors are returned for the alert (the earlier preview stays); otherwise the
     * preview shows the whole selection in its order.
     */
    method HandleSelection() returns (errors: seq<FileError>)
      modifies this
      ensures errors == OversizeErrors(old(files))
      ensures errors != [] ==> files == [] && preview == old(preview)
      ensures errors == [] ==> files == old(files) && preview == old(files)
    {
      var valid;
      valid, errors := ScreenSelection(files);
      if errors != [] {
        files := [];
        return;
      }
      preview := valid;
    }

    /** removeFileFromInput: drops the file at `indexToRemove` and handles the new selection. */
    method RemoveFile(indexToRemove: int) returns (errors: seq<FileError>)
      modifies this
      ensures var kept := if 0 <= indexToRemove < |old(files)|
                          then old(files)[..indexToRemove] + old(files)[indexToRemove + 1..]
                          else old(files);
        errors == OversizeErrors(kept) &&
        (errors != [] ==> files == [] && preview == old(preview)) &&
        (errors == [] ==> files == kept && preview == kept)
    {
      files := WithoutIndex(files, indexToRemove);
      errors := HandleSelection();
    }
  }

  /** The number of files with a positive size. */
  function PositiveCount(files: seq<File>): nat
  {
    if files == [] then 0 else (if files[0].size > 0 then 1 else 0) + PositiveCount(files[1..])
  }

  lemma {:induction false} PositiveCountAppend(a: seq<File>, b: seq<File>)
    ensures PositiveCount(a + b) == PositiveCount(a) + PositiveCount(b)
  {
    if a == [] {
      assert a + b == b;
    } else {
      assert (a + b)[0] == a[0];
      assert (a + b)[1..] == a[1..] + b;
      PositiveCountAppend(a[1..], b);
    }
  }

  /** The files with a positive size over the first `n` inputs, in FileFields order. */
  function PositiveUpTo(sel: Categories<File>, n: nat): nat
    requires n <= |FileFields|
  {
    if n == 0 then 0 else PositiveUpTo(sel, n - 1) + PositiveCount(sel.Of(FileFields[n - 1]))
  }

  /** getTotalFileCount: the entries with a positive size across all four inputs. */
  method TotalFileCount(sel: Categories<File>) returns (count: nat)
    ensures count == PositiveCount(sel.All())
  {
    count := 0;
    var f := 0;
    while f < |FileFields|
      invariant 0 <= f <= |FileFields|
      invariant count == PositiveUpTo(sel, f)
    {
      var fileList := sel.Of(FileFields[f]);
      var i := 0;
      while i < |fileList|
        invariant 0 <= i <= |fileList|
        invariant count == PositiveUpTo(sel, f) + PositiveCount(fileList[..i])
      {
        assert fileList[..i + 1] == fileList[..i] + [fileList[i]];
        PositiveCountAppend(fileList[..i], [fileList[i]]);
        if fileList[i].size > 0 {
          count := count + 1;
        }
        i := i + 1;
      }
      assert fileList[..i] == fileList;
      f := f + 1;
    }
    assert PositiveUpTo(sel, 1) == PositiveCount(sel.passport);
    assert PositiveUpTo(sel, 2) == PositiveUpTo(sel, 1) + PositiveCount(sel.cv);
    assert PositiveUpTo(sel, 3) == PositiveUpTo(sel, 2) + PositiveCount(sel.certificates);
    assert PositiveUpTo(sel, 4) == PositiveUpTo(sel, 3) + PositiveCount(sel.otherDocuments);
    PositiveCountAll(sel);
  }

  /** The count over all inputs is the sum of the per-input counts. */
  lemma PositiveCountAll(sel: Categories<File>)
    ensures PositiveCount(sel.All()) == PositiveCount(sel.passport) + PositiveCount(sel.cv) +
                                        PositiveCount(sel.certificates) + PositiveCount(sel.otherDocuments)
  {
    PositiveCountAppend(sel.passport, sel.cv);
    PositiveCountAppend(sel.passport + sel.cv, sel.certificates);
    PositiveCountAppend(sel.passport + sel.cv + sel.certificates, sel.otherDocuments);
  }

  /** The files behind a list of descriptors. */
  function FilesOf(ds: seq<Descriptor>): (r: seq<File>)
    ensures |r| == |ds|
  {
    if ds == [] then [] else [ds[0].file] + FilesOf(ds[1..])
  }

  lemma {:induction false} FilesOfAppend(a: seq<Descriptor>, b: seq<Descriptor>)
    ensures FilesOf(a + b) == FilesOf(a) + FilesOf(b)
  {
    if a == [] {
      assert a + b == b;
    } else {
      assert (a + b)[0] == a[0];
      assert (a + b)[1..] == a[1..] + b;
      FilesOfAppend(a[1..], b);
    }
  }

  /** The descriptors of the first `n` inputs, in key order. */
  function Walked(files: Categories<Descriptor>, n: nat): seq<Descriptor>
    requires n <= |FileFields|
  {
    if n == 0 then [] else Walked(files, n - 1) + files.Of(FileFields[n - 1])
  }

  /** Walking one more input adds that input's messages after the earlier ones. */
  lemma WalkedStep(files: Categories<Descriptor>, f: nat)
    requires f < |FileFields|
    ensures OversizeErrors(FilesOf(Walked(files, f + 1))) ==
            OversizeErrors(FilesOf(Walked(files, f))) + OversizeErrors(FilesOf(files.Of(FileFields[f])))
  {
    FilesOfAppend(Walked(files, f), files.Of(FileFields[f]));
    OversizeErrorsAppend(FilesOf(Walked(files, f)), FilesOf(files.Of(FileFields[f])));
  }

  lemma WalkedAll(files: Categories<Descriptor>)
    ensures Walked(files, |FileFields|) == files.All()
  {
    assert Walked(files, 1) == [] + files.passport;
    assert Walked(files, 2) == Walked(files, 1) + files.cv;
    assert Walked(files, 3) == Walked(files, 2) + files.certificates;
    assert Walked(files, 4) == Walked(files, 3) + files.otherDocuments;
    assert [] + files.passport == files.passport;
  }

  lemma {:induction false} OversizeErrorsAreTooLarge(files: seq<File>)
    ensures forall k | 0 <= k < |OversizeErrors(files)| :: OversizeErrors(files)[k].TooLarge?
  {
    if files != [] {
      OversizeErrorsAreTooLarge(files[1..]);
    }
  }

  /** The inner forEach of validateFiles: one message per descriptor over the limit. */
  method ScreenDescriptors(errors: seq<FileError>, category: seq<Descriptor>) returns (r: seq<FileError>)
    ensures r == errors + OversizeErrors(FilesOf(category))
  {
    r := errors;
    var i := 0;
    while i < |category|
      invariant 0 <= i <= |category|
      invariant r == errors + OversizeErrors(FilesOf(category[..i]))
    {
      var d := category[i];
      assert category[..i + 1] == category[..i] + [d];
      FilesOfAppend(category[..i], [d]);
      assert FilesOf([d]) == [d.file];
      OversizeErrorsAppend(FilesOf(category[..i]), [d.file]);
      assert OversizeErrors([d.file]) == (if d.file.size > MaxFileSize then [TooLarge(d.file.name)] else []);
      if d.file.size > MaxFileSize {
        r := r + [TooLarge(d.file.name)];
      }
      i := i + 1;
    }
    assert category[..i] == category;
  }

  /** The outer forEach of validateFiles: the messages of every input, in key order. */
  method ScreenCategories(errors: seq<FileError>, files: Categories<Descriptor>) returns (r: seq<FileError>)
    ensures r == errors + OversizeErrors(FilesOf(files.All()))
  {
    r := errors;
    var f := 0;
    while f < |FileFields|
      invariant 0 <= f <= |FileFields|
      invariant r == errors + OversizeErrors(FilesOf(Walked(files, f)))
    {
      var category := files.Of(FileFields[f]);
      WalkedStep(files, f);
      r := ScreenDescriptors(r, category);
      f := f + 1;
    }
    WalkedAll(files);
  }

  /**
   * validateFiles: the passport message first exactly when no passport file was read, then
   * one message per file over the limit, walking the inputs in key order.
   */
  method ValidateFiles(files: Categories<Descriptor>) returns (errors: seq<FileError>)
    ensures errors == (if files.passport == [] then [PassportRequired] else []) +
                      OversizeErrors(FilesOf(files.All()))
    ensures (|errors| > 0 && errors[0] == PassportRequired) <==> files.passport == []
  {
    errors := [];
    if files.passport == [] {
      errors := errors + [PassportRequired];
    }
    errors := ScreenCategories(errors, files);
    PassportMessageFirst(files.passport == [], FilesOf(files.All()));
  }

  lemma PassportMessageFirst(missing: bool, files: seq<File>)
    ensures var errors := (if missing then [PassportRequired] else []) + OversizeErrors(files);
      (|errors| > 0 && errors[0] == PassportRequired) <==> missing
  {
    OversizeErrorsAreTooLarge(files);
  }
}
