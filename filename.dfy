/**
 * The name under which the PDF is saved: `<client>_<number>.pdf`, each field
 * trimmed, defaulted when blank, and with every run of characters outside
 * `[A-Za-z0-9_-]` collapsed to one underscore (`replace(/[^\w\-]+/g, '_')`).
 */
module Filenames {
  import opened Base

  /** `[\w\-]`: ASCII letters, digits, underscore and hyphen. */
  predicate IsNameChar(c: char) {
    ('A' <= c <= 'Z') || ('a' <= c <= 'z') || ('0' <= c <= '9') || c == '_' || c == '-'
  }

  predicate IsCleanName(s: string) {
    forall i :: 0 <= i < |s| ==> IsNameChar(s[i])
  }

  /**
   * The scan behind `replace(/[^\w\-]+/g, '_')`: name characters are copied;
   * the first character of each run of other characters becomes '_' and the
   * rest of the run is dropped. `inRun` says whether the previous character
   * was part of such a run.
   */
  function SanitizeFrom(s: string, inRun: bool): (r: string)
    ensures IsCleanName(r)
    ensures |r| <= |s|
    ensures !inRun ==> (r == [] <==> s == [])
  {
    if s == [] then []
    else if IsNameChar(s[0]) then [s[0]] + SanitizeFrom(s[1..], false)
    else (if inRun then "" else "_") + SanitizeFrom(s[1..], true)
  }

  /** `s.replace(/[^\w\-]+/g, '_')`. */
  function Sanitize(s: string): (r: string)
    ensures IsCleanName(r)
    ensures |r| <= |s|
    ensures r == [] <==> s == []
  {
    SanitizeFrom(s, false)
  }

  lemma {:induction false} SanitizeFromKeepsClean(s: string, inRun: bool)
    requires IsCleanName(s)
    ensures SanitizeFrom(s, inRun) == s
  {
    if s != [] {
      SanitizeFromKeepsClean(s[1..], false);
    }
  }

  lemma SanitizeKeepsClean(s: string)
    requires IsCleanName(s)
    ensures Sanitize(s) == s
  {
    SanitizeFromKeepsClean(s, false);
  }

  lemma SanitizeIdempotent(s: string)
    ensures Sanitize(Sanitize(s)) == Sanitize(s)
  {
    SanitizeKeepsClean(Sanitize(s));
  }

  /** A clean prefix is copied unchanged. */
  lemma {:induction false} CleanPrefixCopied(a: string, x: string)
    requires IsCleanName(a)
    ensures SanitizeFrom(a + x, false) == a + SanitizeFrom(x, false)
  {
    if a != [] {
      assert (a + x)[0] == a[0];
      assert (a + x)[1..] == a[1..] + x;
      CleanPrefixCopied(a[1..], x);
      assert a == [a[0]] + a[1..];
    } else {
      assert a + x == x;
    }
  }

  /** Inside a run, further non-name characters produce nothing. */
  lemma {:induction false} RunContinues(run: string, b: string)
    requires forall k :: 0 <= k < |run| ==> !IsNameChar(run[k])
    ensures SanitizeFrom(run + b, true) == SanitizeFrom(b, true)
  {
    if run != [] {
      assert (run + b)[0] == run[0];
      assert (run + b)[1..] == run[1..] + b;
      RunContinues(run[1..], b);
    } else {
      assert run + b == b;
    }
  }

  /** A run starts with one underscore. */
  lemma RunStarts(run: string, b: string)
    requires run != [] && forall k :: 0 <= k < |run| ==> !IsNameChar(run[k])
    ensures SanitizeFrom(run + b, false) == "_" + SanitizeFrom(b, true)
  {
    assert (run + b)[0] == run[0];
    assert (run + b)[1..] == run[1..] + b;
    RunContinues(run[1..], b);
  }

  /**
   * A maximal run of non-name characters after a clean prefix becomes exactly
   * one underscore, and the text after it is sanitised on its own.
   */
  lemma SanitizeCollapsesRun(a: string, run: string, b: string)
    requires IsCleanName(a)
    requires run != [] && forall k :: 0 <= k < |run| ==> !IsNameChar(run[k])
    requires b == [] || IsNameChar(b[0])
    ensures Sanitize(a + run + b) == a + "_" + Sanitize(b)
  {
    assert a + run + b == a + (run + b);
    CleanPrefixCopied(a, run + b);
    RunStarts(run, b);
    assert SanitizeFrom(b, true) == SanitizeFrom(b, false);
  }

  /** One form field as it appears in the name: trimmed, defaulted when blank, sanitised. */
  function NamePart(value: string, fallback: string): (r: string)
    requires fallback != []
    ensures IsCleanName(r) && r != []
  {
    var t := Trim(value);
    Sanitize(if t == [] then fallback else t)
  }

  /** Two clean parts joined by an underscore form a clean name. */
  lemma JoinClean(a: string, b: string)
    requires IsCleanName(a) && IsCleanName(b)
    ensures IsCleanName(a + "_" + b)
  {
    var s := a + "_" + b;
    forall i | 0 <= i < |s|
      ensures IsNameChar(s[i])
    {
      if i < |a| {
        assert s[i] == a[i];
      } else if i > |a| {
        assert s[i] == b[i - |a| - 1];
      }
    }
  }

  /**
   * `${client}_${number}.pdf`; the quote uses the fallback number "Quote",
   * the invoice "Invoice".
   */
  function PdfFilename(client: string, number: string, numberFallback: string): (name: string)
    requires numberFallback != []
    ensures |name| >= 7
    ensures name[|name| - 4..] == ".pdf"
    ensures IsCleanName(name[..|name| - 4])
  {
    var stem := NamePart(client, "Client") + "_" + NamePart(number, numberFallback);
    JoinClean(NamePart(client, "Client"), NamePart(number, numberFallback));
    var name := stem + ".pdf";
    assert name[..|name| - 4] == stem;
    assert name[|name| - 4..] == ".pdf";
    name
  }

  lemma PdfFilenameIs(client: string, number: string, numberFallback: string)
    requires numberFallback != []
    ensures PdfFilename(client, number, numberFallback)
         == NamePart(client, "Client") + "_" + NamePart(number, numberFallback) + ".pdf"
  {
  }

  /** Fields that are already clean and have no surrounding blanks are used verbatim. */
  lemma PdfFilenameOfCleanFields(client: string, number: string, numberFallback: string)
    requires numberFallback != []
    requires client != [] && IsCleanName(client)
    requires number != [] && IsCleanName(number)
    ensures PdfFilename(client, number, numberFallback) == client + "_" + number + ".pdf"
  {
    assert !IsJsSpace(client[0]) && !IsJsSpace(client[|client| - 1]);
    TrimKeepsTrimmed(client);
    assert !IsJsSpace(number[0]) && !IsJsSpace(number[|number| - 1]);
    TrimKeepsTrimmed(number);
    SanitizeKeepsClean(client);
    SanitizeKeepsClean(number);
  }

  /** A blank field gives its sanitised fallback. */
  lemma NamePartBlank(value: string, fallback: string)
    requires fallback != []
    requires AllSpace(value)
    ensures NamePart(value, fallback) == Sanitize(fallback)
  {
    assert Trim(value) == [];
  }

  lemma BlankClientPart(client: string)
    requires AllSpace(client)
    ensures NamePart(client, "Client") == "Client"
  {
    NamePartBlank(client, "Client");
    assert IsCleanName("Client");
    SanitizeKeepsClean("Client");
  }

  /** A blank client name falls back to "Client". */
  lemma PdfFilenameBlankClient(client: string, number: string, numberFallback: string)
    requires numberFallback != []
    requires AllSpace(client)
    ensures PdfFilename(client, number, numberFallback)
         == "Client_" + NamePart(number, numberFallback) + ".pdf"
  {
    var n := NamePart(number, numberFallback);
    calc {
      PdfFilename(client, number, numberFallback);
      == { PdfFilenameIs(client, number, numberFallback); }
      NamePart(client, "Client") + "_" + n + ".pdf";
      == { BlankClientPart(client); }
      "Client" + "_" + n + ".pdf";
      == { assert "Client" + "_" == "Client_"; }
      "Client_" + n + ".pdf";
    }
  }
}
