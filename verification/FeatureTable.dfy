/** The table in the header's opening comment, against the user's macros
    themselves: which of them turn on which feature, for every environment. */
module FeatureTable {
  import opened Features

  /** Defined, as at least n; an empty definition counts as 0. */
  predicate Least(m: Macro, n: int) {
    match m
    case Undefined => false
    case Blank => 0 >= n
    case Number(v) => v >= n
  }

  // ---- features that one macro decides ------------------------------------------------

  /** ISO C11, GNU and the default set. */
  lemma LanguageTable(e: Env)
    ensures var u, gnu := Select(e), e.bundle.gnu;
            && (u.c.isoc11 <==> gnu || e.lang.isoc11 || Least(e.lang.stdcVersion, 201112))
            && (u.gnu <==> gnu)
            && (u.misc <==>
                  || gnu || e.bundle.bsd || e.bundle.svid || e.bundle.defaultSource
                  || (&& !e.lang.strictAnsi && !e.lang.isoc99 && !e.lang.isoc11
                      && !e.posix.source && e.posix.level == Undefined && e.xopen.source == Undefined))
  {}

  /** X/Open. */
  lemma XopenTable(e: Env)
    ensures var u, gnu, x := Select(e).xopen, e.bundle.gnu, e.xopen.source;
            && (u.xopen <==> gnu || x != Undefined)
            && (u.extended <==> gnu || Least(x, 500) || (x != Undefined && e.xopen.extended))
            && (u.unix98 <==> gnu || Least(x, 500))
            && (u.xopen2kxsi <==> gnu || Least(x, 600))
            && (u.xopen2k8xsi <==> gnu || Least(x, 700))
  {}

  /** Large files. */
  lemma FilesTable(e: Env)
    ensures var u, gnu := Select(e).files, e.bundle.gnu;
            var wide := e.files.offsetBits == Number(64);
            && (u.offset64 <==> wide)
            && (u.large <==> gnu || e.files.large || Least(e.xopen.source, 500) || (wide && !e.files.redirect))
            && (u.large64 <==> gnu || e.files.large64 || (wide && !e.files.redirect))
  {}

  /** Where the header gives up: an empty macro in a comparison.  An empty
      _POSIX_C_SOURCE is spared if something else replaces it. */
  lemma MalformedExactly(e: Env)
    ensures Malformed(e) <==>
              || e.lang.stdcVersion == Blank || e.files.offsetBits == Blank
              || (&& e.posix.level == Blank && !e.posix.reentrant && !e.posix.threadSafe
                  && !e.bundle.gnu && !e.bundle.bsd && !e.bundle.svid && !e.bundle.defaultSource)
  {}

  /** The POSIX level was not the user's choice. */
  lemma ImplicitlyExactly(e: Env)
    ensures Select(e).posixImplicitly <==>
              && !e.bundle.gnu && !e.posix.source && e.posix.level == Undefined
              && (|| e.bundle.bsd || e.bundle.svid || e.bundle.defaultSource
                  || !e.lang.strictAnsi || Least(e.xopen.source, 500))
  {}

  // ---- features that follow from the POSIX level ----------------------------------------

  /** e gets what POSIX level n brings, and beyond that only what it asks for. */
  predicate HasLevel(e: Env, n: int) {
    var u, gnu, x, v := Select(e), e.bundle.gnu, e.xopen.source, e.lang.stdcVersion;
    && (u.posix.posix <==> n >= 1 || e.posix.source || gnu || x != Undefined)
    && (u.posix.posix2 <==> n >= 2 || gnu || x != Undefined)
    && (u.posix.posix199309 <==> n >= 199309)
    && (u.posix.posix199506 <==> n >= 199506)
    && (u.xopen.xopen2k <==> n >= 200112 || gnu || Least(x, 600))
    && (u.xopen.xopen2k8 <==> n >= 200809 || gnu || Least(x, 700))
    && (u.files.at <==> n >= 200809 || gnu || e.files.at)
    && (u.c.isoc99 <==> n >= 200112 || gnu || Least(x, 600) || e.lang.isoc99 || e.lang.isoc11 || Least(v, 199901))
    && (u.c.isoc95 <==> n >= 200112 || gnu || Least(x, 600) || e.lang.isoc99 || e.lang.isoc11 || Least(v, 199409))
  }

  /** _REENTRANT and _THREAD_SAFE raise a level to 199506. */
  function Raise(e: Env, n: int): int {
    if (e.posix.reentrant || e.posix.threadSafe) && n < 199506 then 199506 else n
  }

  predicate Bundled(e: Env) {
    e.bundle.gnu || e.bundle.bsd || e.bundle.svid || e.bundle.defaultSource
  }

  /** No macro that settles the POSIX level by itself. */
  predicate Unsettled(e: Env) {
    !Bundled(e) && !e.posix.source && e.posix.level == Undefined
  }

  /** _GNU_SOURCE, _DEFAULT_SOURCE and its aliases bring POSIX.1-2008, whatever else is defined. */
  lemma LevelOfBundle(e: Env)
    requires Bundled(e)
    ensures HasLevel(e, 200809) && Rewrite(e).posix.level == Number(200809) && Rewrite(e).posix.source
  {}

  /** _POSIX_C_SOURCE brings the level it names. */
  lemma LevelNamed(e: Env, n: int)
    requires !Bundled(e) && (e.posix.level == Number(n) || (e.posix.level == Blank && n == 0))
    ensures HasLevel(e, Raise(e, n))
    ensures Rewrite(e).posix.level == if Raise(e, n) == n then e.posix.level else Number(199506)
  {}

  /** _POSIX_SOURCE alone brings no level but the first edition. */
  lemma LevelOfSource(e: Env)
    requires !Bundled(e) && e.posix.source && e.posix.level == Undefined
    ensures HasLevel(e, Raise(e, 0)) && Select(e).posix.posix
  {}

  /** Without any of them, _XOPEN_SOURCE decides, under __STRICT_ANSI__ from 500 on. */
  lemma LevelOfXopen(e: Env, x: int)
    requires Unsettled(e) && (e.xopen.source == Number(x) || (e.xopen.source == Blank && x == 0))
    requires !e.lang.strictAnsi || x >= 500
    ensures x < 500 ==> HasLevel(e, Raise(e, 2))
    ensures 500 <= x < 600 ==> HasLevel(e, 199506)
    ensures 600 <= x < 700 ==> HasLevel(e, 200112)
    ensures 700 <= x ==> HasLevel(e, 200809)
    ensures Rewrite(e).posix.source
  {}

  /** And without that, POSIX.1-2008 is the default. */
  lemma LevelByDefault(e: Env)
    requires Unsettled(e) && e.xopen.source == Undefined && !e.lang.strictAnsi
    ensures HasLevel(e, 200809) && Rewrite(e).posix.level == Number(200809) && Rewrite(e).posix.source
  {}

  /** Under __STRICT_ANSI__ nothing is. */
  lemma LevelOfStrict(e: Env)
    requires Unsettled(e) && e.lang.strictAnsi && !Least(e.xopen.source, 500)
    ensures HasLevel(e, Raise(e, 0))
  {}

  /** Macros that are implied by others are defined by the header; the rest stay as they are. */
  lemma RewriteTable(e: Env)
    ensures var r, u, gnu := Rewrite(e), Select(e), e.bundle.gnu;
            && r.lang == (if gnu then Language(e.lang.strictAnsi, e.lang.stdcVersion, true, true, true) else e.lang)
            && r.bundle == Bundle(e.bundle.bsd, e.bundle.svid, gnu, u.misc)
            && r.posix.reentrant == e.posix.reentrant && r.posix.threadSafe == e.posix.threadSafe
            && r.xopen == (if gnu then Xopen(Number(700), true) else e.xopen)
            && r.files == Files(e.files.large || gnu || Least(e.xopen.source, 500), e.files.large64 || gnu,
                                e.files.offsetBits, u.files.at, e.files.redirect)
  {}

  // ---- single selections under __STRICT_ANSI__ -------------------------------------------

  const STRICT := NOTHING.(lang := NOTHING.lang.(strictAnsi := true))

  const NO_C := UseC(false, false, false)
  const NO_POSIX := UsePosix(false, false, false, false)
  const NO_XOPEN := UseXopen(false, false, false, false, false, false, false)
  const NO_FILES := UseFiles(false, false, false, false)
  const NO_FLAGS := Flags(NO_C, NO_POSIX, NO_XOPEN, NO_FILES, false, false, false)

  /** The default set: POSIX.1-2008, with the C it is based on, and BSD and SVID. */
  const DEFAULT_SET := Flags(UseC(false, true, true), UsePosix(true, true, true, true),
                             NO_XOPEN.(xopen2k := true, xopen2k8 := true), NO_FILES.(at := true), true, false, true)

  /** Nothing selected gives the default set, and under __STRICT_ANSI__ nothing. */
  lemma NothingSelected()
    ensures Select(NOTHING) == DEFAULT_SET && Select(STRICT) == NO_FLAGS
  {}

  /** Each language macro alone; _ISOC95_SOURCE turns out to do nothing. */
  lemma LanguageAlone(n: int)
    ensures Select(STRICT.(lang := STRICT.lang.(stdcVersion := Number(n))))
            == NO_FLAGS.(c := UseC(n >= 201112, n >= 199901, n >= 199409))
    ensures Select(STRICT.(lang := STRICT.lang.(isoc95 := true))) == NO_FLAGS
    ensures Select(STRICT.(lang := STRICT.lang.(isoc99 := true))) == NO_FLAGS.(c := UseC(false, true, true))
    ensures Select(STRICT.(lang := STRICT.lang.(isoc11 := true))) == NO_FLAGS.(c := UseC(true, true, true))
  {}

  /** Each POSIX macro alone. */
  lemma PosixAlone(n: int)
    ensures Select(STRICT.(posix := STRICT.posix.(source := true)))
            == NO_FLAGS.(posix := UsePosix(true, false, false, false))
    ensures Select(STRICT.(posix := STRICT.posix.(level := Number(n))))
            == NO_FLAGS.(c := UseC(false, n >= 200112, n >= 200112),
                         posix := UsePosix(n >= 1, n >= 2, n >= 199309, n >= 199506),
                         xopen := NO_XOPEN.(xopen2k := n >= 200112, xopen2k8 := n >= 200809),
                         files := NO_FILES.(at := n >= 200809))
    ensures Select(STRICT.(posix := STRICT.posix.(reentrant := true)))
            == Select(STRICT.(posix := STRICT.posix.(threadSafe := true)))
            == NO_FLAGS.(posix := UsePosix(true, true, true, true))
  {}

  /** The header's own example: __STRICT_ANSI__, _POSIX_SOURCE and
      _POSIX_C_SOURCE=2 give ISO C, 1003.1 and 1003.2, but nothing else. */
  lemma DocumentedExample()
    ensures Select(STRICT.(posix := STRICT.posix.(source := true, level := Number(2))))
            == NO_FLAGS.(posix := UsePosix(true, true, false, false))
  {}

  /** Each X/Open macro alone; _XOPEN_SOURCE_EXTENDED counts only beside the other. */
  lemma XopenAlone(x: int)
    ensures Select(STRICT.(xopen := Xopen(Number(x), false)))
            == Flags(UseC(false, x >= 600, x >= 600),
                     UsePosix(true, true, x >= 500, x >= 500),
                     UseXopen(true, x >= 500, x >= 500, x >= 600, x >= 600, x >= 700, x >= 700),
                     NO_FILES.(large := x >= 500, at := x >= 700),
                     false, false, x >= 500)
    ensures Select(STRICT.(xopen := Xopen(Undefined, true))) == NO_FLAGS
    ensures Select(STRICT.(xopen := Xopen(Number(x), true))).xopen.extended
  {}

  /** Each file macro alone. */
  lemma FilesAlone(n: int)
    ensures Select(STRICT.(files := STRICT.files.(large := true))) == NO_FLAGS.(files := NO_FILES.(large := true))
    ensures Select(STRICT.(files := STRICT.files.(large64 := true))) == NO_FLAGS.(files := NO_FILES.(large64 := true))
    ensures Select(STRICT.(files := STRICT.files.(offsetBits := Number(n))))
            == NO_FLAGS.(files := NO_FILES.(offset64 := n == 64))
    ensures Select(STRICT.(files := STRICT.files.(at := true))) == NO_FLAGS.(files := NO_FILES.(at := true))
  {}

  /** Each bundle alone: _BSD_SOURCE and _SVID_SOURCE are aliases for
      _DEFAULT_SOURCE, which takes precedence over __STRICT_ANSI__; _GNU_SOURCE
      brings everything but the 64-bit default. */
  lemma BundlesAlone()
    ensures Select(STRICT.(bundle := STRICT.bundle.(defaultSource := true))) == DEFAULT_SET
    ensures Select(STRICT.(bundle := STRICT.bundle.(bsd := true))) == DEFAULT_SET
    ensures Select(STRICT.(bundle := STRICT.bundle.(svid := true))) == DEFAULT_SET
    ensures Select(STRICT.(bundle := STRICT.bundle.(gnu := true)))
            == Flags(UseC(true, true, true), UsePosix(true, true, true, true),
                     UseXopen(true, true, true, true, true, true, true), UseFiles(true, true, false, true),
                     true, true, false)
  {}

  /** _DEFAULT_SOURCE, _BSD_SOURCE and _SVID_SOURCE are interchangeable in every environment. */
  lemma AliasesAgree(e: Env, bundle: Bundle)
    requires bundle.gnu == e.bundle.gnu
    requires (bundle.bsd || bundle.svid || bundle.defaultSource)
             <==> (e.bundle.bsd || e.bundle.svid || e.bundle.defaultSource)
    ensures Select(e.(bundle := bundle)) == Select(e)
  {}
}
