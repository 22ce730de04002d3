/** Feature-test macro resolution: what a user's selection of standards turns
    into.  The methods are the header's own sequence of conditional #define and
    #undef steps; `Select` and `Rewrite` say in closed form what it leaves behind. */
module Features {

  /** A macro as the preprocessor sees it: not defined, defined as nothing, or
      defined as an integer. */
  datatype Macro = Undefined | Blank | Number(n: int)

  predicate Defined(m: Macro) {
    m != Undefined
  }

  /** The value of (M - 0), which also makes sense of an empty definition. */
  function Value(m: Macro): int {
    if m.Number? then m.n else 0
  }

  predicate AtLeast(m: Macro, n: int) {
    Defined(m) && Value(m) >= n
  }

  // Macros only ever tested with `defined` are booleans.
  datatype Language = Language(strictAnsi: bool, stdcVersion: Macro, isoc95: bool, isoc99: bool, isoc11: bool)
  datatype Bundle = Bundle(bsd: bool, svid: bool, gnu: bool, defaultSource: bool)
  datatype Posix = Posix(source: bool, level: Macro, reentrant: bool, threadSafe: bool)
  datatype Xopen = Xopen(source: Macro, extended: bool)
  datatype Files = Files(large: bool, large64: bool, offsetBits: Macro, at: bool, redirect: bool)

  /** The macros the header reads and rewrites. */
  datatype Env = Env(lang: Language, bundle: Bundle, posix: Posix, xopen: Xopen, files: Files)

  datatype UseC = UseC(isoc11: bool, isoc99: bool, isoc95: bool)
  datatype UsePosix = UsePosix(posix: bool, posix2: bool, posix199309: bool, posix199506: bool)
  datatype UseXopen = UseXopen(xopen: bool, extended: bool, unix98: bool,
                               xopen2k: bool, xopen2kxsi: bool, xopen2k8: bool, xopen2k8xsi: bool)
  datatype UseFiles = UseFiles(large: bool, large64: bool, offset64: bool, at: bool)

  /** The __USE_* macros the header defines. */
  datatype Flags = Flags(c: UseC, posix: UsePosix, xopen: UseXopen, files: UseFiles,
                         misc: bool, gnu: bool, posixImplicitly: bool)

  // ---- closed form ------------------------------------------------------------

  predicate ExplicitDefault(e: Env) {
    e.bundle.gnu || e.bundle.bsd || e.bundle.svid || e.bundle.defaultSource
  }

  predicate PosixNamed(e: Env) {
    e.posix.source || Defined(e.posix.level)
  }

  /** Nothing was selected, so the default set is. */
  predicate ImplicitDefault(e: Env) {
    && !ExplicitDefault(e) && !e.lang.strictAnsi && !e.lang.isoc99 && !e.lang.isoc11
    && !PosixNamed(e) && !Defined(e.xopen.source)
  }

  predicate DefaultOn(e: Env) {
    ExplicitDefault(e) || ImplicitDefault(e)
  }

  function XopenSource(e: Env): Macro {
    if e.bundle.gnu then Number(700) else e.xopen.source
  }

  /** A POSIX level is chosen on the user's behalf, to go with _XOPEN_SOURCE. */
  predicate ImplicitPosix(e: Env) {
    && !DefaultOn(e) && !PosixNamed(e)
    && (!e.lang.strictAnsi || AtLeast(e.xopen.source, 500))
  }

  function LevelFor(xopen: Macro): int {
    if !Defined(xopen) then 200809
    else if Value(xopen) < 500 then 2
    else if Value(xopen) < 600 then 199506
    else if Value(xopen) < 700 then 200112
    else 200809
  }

  /** _POSIX_C_SOURCE before the threading macros are looked at. */
  function ChosenLevel(e: Env): Macro {
    if DefaultOn(e) then Number(200809)
    else if ImplicitPosix(e) then Number(LevelFor(e.xopen.source))
    else e.posix.level
  }

  predicate Threaded(e: Env) {
    e.posix.reentrant || e.posix.threadSafe
  }

  predicate ThreadsRaise(e: Env) {
    Threaded(e) && !AtLeast(ChosenLevel(e), 199506)
  }

  /** The POSIX level in force in the end. */
  function Level(e: Env): Macro {
    if ThreadsRaise(e) then Number(199506) else ChosenLevel(e)
  }

  predicate PosixDefined(e: Env) {
    e.posix.source || DefaultOn(e) || ImplicitPosix(e) || ThreadsRaise(e)
  }

  /** Some #if compares an empty macro without the "- 0" idiom, which is a syntax error. */
  predicate Malformed(e: Env) {
    e.lang.stdcVersion.Blank? || Level(e).Blank? || e.files.offsetBits.Blank?
  }

  predicate Modern(level: Macro, xopen: Macro) {
    AtLeast(level, 200112) || AtLeast(xopen, 600)
  }

  function SelectC(lang: Language, modern: bool): UseC {
    var c99 := lang.isoc11 || lang.isoc99;
    UseC(lang.isoc11 || AtLeast(lang.stdcVersion, 201112),
         c99 || AtLeast(lang.stdcVersion, 199901) || modern,
         c99 || AtLeast(lang.stdcVersion, 199409) || modern)
  }

  function SelectPosix(source: bool, level: Macro, xopen: Macro): UsePosix {
    UsePosix(source || AtLeast(level, 1) || Defined(xopen),
             AtLeast(level, 2) || Defined(xopen),
             AtLeast(level, 199309),
             AtLeast(level, 199506))
  }

  function SelectXopen(level: Macro, xopen: Macro, extended: bool): UseXopen {
    UseXopen(Defined(xopen), Defined(xopen) && (Value(xopen) >= 500 || extended), AtLeast(xopen, 500),
             Modern(level, xopen), AtLeast(xopen, 600),
             AtLeast(level, 200809) || AtLeast(xopen, 700), AtLeast(xopen, 700))
  }

  function SelectFiles(files: Files): UseFiles {
    var offset64 := Defined(files.offsetBits) && Value(files.offsetBits) == 64;
    var bare := offset64 && !files.redirect;
    UseFiles(files.large || bare, files.large64 || bare, offset64, files.at)
  }

  function RewriteLanguage(e: Env): Language {
    if e.bundle.gnu then e.lang.(isoc95 := true, isoc99 := true, isoc11 := true) else e.lang
  }

  function RewriteFiles(e: Env): Files {
    e.files.(large := e.files.large || AtLeast(XopenSource(e), 500),
             large64 := e.files.large64 || e.bundle.gnu,
             at := e.files.at || e.bundle.gnu || AtLeast(Level(e), 200809))
  }

  /** The feature-test macros as the header leaves them. */
  function Rewrite(e: Env): Env {
    Env(RewriteLanguage(e),
        e.bundle.(defaultSource := DefaultOn(e)),
        e.posix.(source := PosixDefined(e), level := Level(e)),
        Xopen(XopenSource(e), e.xopen.extended || e.bundle.gnu),
        RewriteFiles(e))
  }

  function Select(e: Env): Flags {
    Flags(SelectC(RewriteLanguage(e), Modern(Level(e), XopenSource(e))),
          SelectPosix(PosixDefined(e), Level(e), XopenSource(e)),
          SelectXopen(Level(e), XopenSource(e), e.xopen.extended || e.bundle.gnu),
          SelectFiles(RewriteFiles(e)),
          DefaultOn(e), e.bundle.gnu,
          !e.bundle.gnu && !PosixNamed(e) && (DefaultOn(e) || ImplicitPosix(e)))
  }

  // ---- the header ---------------------------------------------------------------

  /** _BSD_SOURCE, _SVID_SOURCE, _GNU_SOURCE, and the default set. */
  method Normalise(e: Env) returns (lang: Language, bundle: Bundle, posix: Posix, xopen: Xopen, files: Files)
    ensures lang == RewriteLanguage(e)
    ensures bundle == e.bundle.(defaultSource := DefaultOn(e))
    ensures posix == if e.bundle.gnu then e.posix.(source := true, level := Number(200809)) else e.posix
    ensures xopen == Xopen(XopenSource(e), e.xopen.extended || e.bundle.gnu)
    ensures files == e.files.(large64 := e.files.large64 || e.bundle.gnu, at := e.files.at || e.bundle.gnu)
  {
    lang, bundle, posix, xopen, files := e.lang, e.bundle, e.posix, e.xopen, e.files;
    if (bundle.bsd || bundle.svid) && !bundle.defaultSource {
      bundle := bundle.(defaultSource := true);
    }
    if bundle.gnu {
      lang := lang.(isoc95 := true, isoc99 := true, isoc11 := true);
      posix := posix.(source := true, level := Number(200809));
      xopen := Xopen(Number(700), true);
      files := files.(large64 := true);
      bundle := bundle.(defaultSource := true);
      files := files.(at := true);
    }
    if bundle.defaultSource
       || (!lang.strictAnsi && !lang.isoc99 && !lang.isoc11 && !posix.source && !Defined(posix.level)
           && !Defined(xopen.source)) {
      bundle := bundle.(defaultSource := true);
    }
  }

  /** __USE_ISOC11, __USE_ISOC99, __USE_ISOC95. */
  method EnableC(lang: Language) returns (ok: bool, c: UseC)
    ensures ok == !lang.stdcVersion.Blank?
    ensures ok ==> c == SelectC(lang, false)
  {
    c := UseC(false, false, false);
    ok := !lang.stdcVersion.Blank?;
    if ok {
      if lang.isoc11 || (Defined(lang.stdcVersion) && lang.stdcVersion.n >= 201112) {
        c := c.(isoc11 := true);
      }
      if lang.isoc99 || lang.isoc11 || (Defined(lang.stdcVersion) && lang.stdcVersion.n >= 199901) {
        c := c.(isoc99 := true);
      }
      if lang.isoc99 || lang.isoc11 || (Defined(lang.stdcVersion) && lang.stdcVersion.n >= 199409) {
        c := c.(isoc95 := true);
      }
    }
  }

  /** _POSIX_SOURCE and _POSIX_C_SOURCE as implied by the default set and by _XOPEN_SOURCE. */
  method ImplyPosix(strictAnsi: bool, defaultSource: bool, before: Posix, xopen: Macro, stale: bool)
    returns (posix: Posix, implicitly: bool)
    ensures var unnamed := !before.source && !Defined(before.level);
            var chosen := unnamed && (!strictAnsi || AtLeast(xopen, 500));
            && posix == (if defaultSource then before.(source := true, level := Number(200809))
                         else if chosen then before.(source := true, level := Number(LevelFor(xopen)))
                         else before)
            && implicitly == (stale || (unnamed && (defaultSource || chosen)))
  {
    posix, implicitly := before, stale;
    if defaultSource {
      if !posix.source && !Defined(posix.level) {
        implicitly := true;
      }
      posix := posix.(source := true, level := Number(200809));
    }
    if (!strictAnsi || (Defined(xopen) && Value(xopen) >= 500)) && !posix.source && !Defined(posix.level) {
      posix := posix.(source := true);
      if Defined(xopen) && Value(xopen) < 500 {
        posix := posix.(level := Number(2));
      } else if Defined(xopen) && Value(xopen) < 600 {
        posix := posix.(level := Number(199506));
      } else if Defined(xopen) && Value(xopen) < 700 {
        posix := posix.(level := Number(200112));
      } else {
        posix := posix.(level := Number(200809));
      }
      implicitly := true;
    }
  }

  /** _REENTRANT and _THREAD_SAFE. */
  method RaiseForThreads(before: Posix) returns (posix: Posix)
    ensures posix == if (before.reentrant || before.threadSafe) && !AtLeast(before.level, 199506)
                     then before.(source := true, level := Number(199506)) else before
  {
    posix := before;
    if (!Defined(posix.level) || Value(posix.level) < 199506) && (posix.reentrant || posix.threadSafe) {
      posix := posix.(source := true, level := Number(199506));
    }
  }

  /** Both steps together settle the POSIX level. */
  method ChoosePosix(ghost e: Env, strictAnsi: bool, defaultSource: bool, before: Posix, xopen: Macro, stale: bool)
    returns (posix: Posix, implicitly: bool)
    requires strictAnsi == e.lang.strictAnsi && defaultSource == DefaultOn(e) && xopen == XopenSource(e)
    requires before == if e.bundle.gnu then e.posix.(source := true, level := Number(200809)) else e.posix
    ensures posix == e.posix.(source := PosixDefined(e), level := Level(e))
    ensures implicitly == (stale || Select(e).posixImplicitly)
  {
    hide SelectC, SelectPosix, SelectXopen, SelectFiles, RewriteFiles;
    posix, implicitly := ImplyPosix(strictAnsi, defaultSource, before, xopen, stale);
    posix := RaiseForThreads(posix);
  }

  /** The flags that follow from the POSIX level. */
  method EnablePosix(posix: Posix, xopen: Macro, before: UseC, atBefore: bool)
    returns (ok: bool, p: UsePosix, c: UseC, xopen2k: bool, xopen2k8: bool, at: bool)
    ensures ok == !posix.level.Blank?
    ensures ok ==> p == SelectPosix(posix.source, posix.level, xopen)
    ensures xopen2k == AtLeast(posix.level, 200112) && xopen2k8 == AtLeast(posix.level, 200809)
    ensures c == if xopen2k then before.(isoc95 := true, isoc99 := true) else before
    ensures at == (atBefore || xopen2k8)
  {
    c, xopen2k, xopen2k8, at := before, false, false, atBefore;
    p := UsePosix(false, false, false, false);
    ok := !posix.level.Blank?;
    if ok {
      if posix.source || (Defined(posix.level) && posix.level.n >= 1) || Defined(xopen) {
        p := p.(posix := true);
      }
      if (Defined(posix.level) && posix.level.n >= 2) || Defined(xopen) {
        p := p.(posix2 := true);
      }
      if Defined(posix.level) && Value(posix.level) >= 199309 {
        p := p.(posix199309 := true);
      }
      if Defined(posix.level) && Value(posix.level) >= 199506 {
        p := p.(posix199506 := true);
      }
    }
    if Defined(posix.level) && Value(posix.level) >= 200112 {
      xopen2k := true;
      c := c.(isoc95 := true, isoc99 := true);
    }
    if Defined(posix.level) && Value(posix.level) >= 200809 {
      xopen2k8 := true;
      at := true;
    }
  }

  /** The flags that follow from _XOPEN_SOURCE. */
  method EnableXopen(xopen: Xopen, ghost level: Macro, xopen2k: bool, xopen2k8: bool, before: UseC, largeBefore: bool)
    returns (x: UseXopen, c: UseC, large: bool)
    requires xopen2k == AtLeast(level, 200112) && xopen2k8 == AtLeast(level, 200809)
    ensures x == SelectXopen(level, xopen.source, xopen.extended)
    ensures c == if AtLeast(xopen.source, 600) then before.(isoc95 := true, isoc99 := true) else before
    ensures large == (largeBefore || AtLeast(xopen.source, 500))
  {
    x := UseXopen(false, false, false, xopen2k, false, xopen2k8, false);
    c, large := before, largeBefore;
    if Defined(xopen.source) {
      x := x.(xopen := true);
      if Value(xopen.source) >= 500 {
        x := x.(extended := true, unix98 := true);
        large := true;
        if Value(xopen.source) >= 600 {
          if Value(xopen.source) >= 700 {
            x := x.(xopen2k8 := true, xopen2k8xsi := true);
          }
          x := x.(xopen2k := true, xopen2kxsi := true);
          c := c.(isoc95 := true, isoc99 := true);
        }
      } else {
        if xopen.extended {
          x := x.(extended := true);
        }
      }
    }
  }

  /** Large files and the *at interfaces. */
  method EnableFiles(files: Files) returns (ok: bool, f: UseFiles)
    ensures ok == !files.offsetBits.Blank?
    ensures ok ==> f == SelectFiles(files)
  {
    f := UseFiles(false, false, false, false);
    ok := !files.offsetBits.Blank?;
    if files.large {
      f := f.(large := true);
    }
    if files.large64 {
      f := f.(large64 := true);
    }
    if ok && Defined(files.offsetBits) && files.offsetBits.n == 64 {
      f := f.(offset64 := true);
    }
    if files.at {
      f := f.(at := true);
    }
    if f.offset64 && !files.redirect {
      f := f.(large := true, large64 := true);
    }
  }

  /** The whole header.  `stale` says whether __USE_POSIX_IMPLICITLY was defined
      before: it is not among the macros the header undefines first.  Fails
      where the preprocessor would. */
  method Include(e: Env, stale: bool) returns (ok: bool, out: Env, use: Flags)
    ensures ok == !Malformed(e)
    ensures ok ==> out == Rewrite(e)
    ensures ok ==> use == Select(e).(posixImplicitly := stale || Select(e).posixImplicitly)
  {
    hide Level, PosixDefined, XopenSource, DefaultOn, AtLeast, SelectPosix, SelectXopen, SelectFiles;
    ok, out := false, e;
    use := Flags(UseC(false, false, false), UsePosix(false, false, false, false),
                 UseXopen(false, false, false, false, false, false, false),
                 UseFiles(false, false, false, false), false, false, stale);
    var lang, bundle, posix, xopen, files := Normalise(e);
    var okC, c := EnableC(lang);
    var implicitly;
    posix, implicitly := ChoosePosix(e, lang.strictAnsi, bundle.defaultSource, posix, xopen.source, stale);
    var okP, p, c', xopen2k, xopen2k8, at := EnablePosix(posix, xopen.source, c, files.at);
    var x, c'', large := EnableXopen(xopen, posix.level, xopen2k, xopen2k8, c', files.large);
    files := files.(at := at, large := large);
    var okF, f := EnableFiles(files);
    ok := okC && okP && okF;
    if ok {
      out := Env(lang, bundle, posix, xopen, files);
      use := Flags(c'', p, x, f, bundle.defaultSource, bundle.gnu, implicitly);
    }
  }

  // ---- what users rely on -------------------------------------------------------

  predicate CWithin(a: UseC, b: UseC) {
    (a.isoc11 ==> b.isoc11) && (a.isoc99 ==> b.isoc99) && (a.isoc95 ==> b.isoc95)
  }

  predicate PosixWithin(a: UsePosix, b: UsePosix) {
    && (a.posix ==> b.posix) && (a.posix2 ==> b.posix2)
    && (a.posix199309 ==> b.posix199309) && (a.posix199506 ==> b.posix199506)
  }

  predicate XopenWithin(a: UseXopen, b: UseXopen) {
    && (a.xopen ==> b.xopen) && (a.extended ==> b.extended) && (a.unix98 ==> b.unix98)
    && (a.xopen2k ==> b.xopen2k) && (a.xopen2kxsi ==> b.xopen2kxsi)
    && (a.xopen2k8 ==> b.xopen2k8) && (a.xopen2k8xsi ==> b.xopen2k8xsi)
  }

  predicate FilesWithin(a: UseFiles, b: UseFiles) {
    (a.large ==> b.large) && (a.large64 ==> b.large64) && (a.offset64 ==> b.offset64) && (a.at ==> b.at)
  }

  /** Every feature a enables, b enables too.  __USE_POSIX_IMPLICITLY is no
      feature: it records how the level was chosen. */
  predicate Within(a: Flags, b: Flags) {
    && CWithin(a.c, b.c) && PosixWithin(a.posix, b.posix) && XopenWithin(a.xopen, b.xopen)
    && FilesWithin(a.files, b.files) && (a.misc ==> b.misc) && (a.gnu ==> b.gnu)
  }

  predicate SameFeatures(a: Flags, b: Flags) {
    a.(posixImplicitly := false) == b.(posixImplicitly := false)
  }

  /** b is defined if a is, to at least the same value. */
  predicate Raised(a: Macro, b: Macro) {
    Defined(a) ==> Defined(b) && Value(a) <= Value(b)
  }

  /** Everything selected in e is selected in f, at least at the same level. */
  predicate Extends(e: Env, f: Env) {
    && Raised(e.lang.stdcVersion, f.lang.stdcVersion)
    && (e.lang.isoc99 ==> f.lang.isoc99) && (e.lang.isoc11 ==> f.lang.isoc11)
    && (e.bundle.bsd ==> f.bundle.bsd) && (e.bundle.svid ==> f.bundle.svid)
    && (e.bundle.gnu ==> f.bundle.gnu) && (e.bundle.defaultSource ==> f.bundle.defaultSource)
    && (e.posix.source ==> f.posix.source) && Raised(e.posix.level, f.posix.level)
    && (e.posix.reentrant ==> f.posix.reentrant) && (e.posix.threadSafe ==> f.posix.threadSafe)
    && Raised(e.xopen.source, f.xopen.source) && (e.xopen.extended ==> f.xopen.extended)
    && (e.files.large ==> f.files.large) && (e.files.large64 ==> f.files.large64)
    && (e.files.at ==> f.files.at)
    && (e.files.offsetBits == f.files.offsetBits || !Defined(e.files.offsetBits))
    && e.files.redirect == f.files.redirect
  }

  /** Some feature of e hangs on a choice the header made for want of a
      selection, and that a further selection can undo: the default set, or a
      POSIX level that neither _XOPEN_SOURCE nor the threading macros back up. */
  predicate Fragile(e: Env) {
    || ImplicitDefault(e)
    || (ImplicitPosix(e) &&
        (!Defined(e.xopen.source)
         || (if Threaded(e) then Value(e.xopen.source) >= 700 && !e.files.at else Value(e.xopen.source) >= 500)))
  }

  lemma SturdyPosix(e: Env, f: Env)
    requires Extends(e, f) && !Fragile(e)
    ensures (DefaultOn(e) ==> DefaultOn(f)) && PosixWithin(Select(e).posix, Select(f).posix)
  {}

  lemma SturdyModern(e: Env, f: Env)
    requires Extends(e, f) && !Fragile(e)
    ensures Modern(Level(e), XopenSource(e)) ==> Modern(Level(f), XopenSource(f))
    ensures Select(e).xopen.xopen2k8 ==> Select(f).xopen.xopen2k8
    ensures Select(e).files.at ==> Select(f).files.at
  {
    hide SelectC, SelectPosix;
    // f gets its level from the default set; or e has one chosen for it; or both name it.
    if DefaultOn(f) {
    } else if ImplicitPosix(e) {
    } else {
    }
  }

  lemma SturdyIsMonotone(e: Env, f: Env)
    requires Extends(e, f) && !Fragile(e)
    ensures Within(Select(e), Select(f))
  {
    SturdyPosix(e, f);
    SturdyModern(e, f);
    hide Level, DefaultOn, PosixDefined, Fragile, SelectPosix, Modern;
  }

  /** e with an explicit but pointless _POSIX_C_SOURCE. */
  function NamingPosix(e: Env): Env {
    e.(posix := e.posix.(level := Number(0)))
  }

  lemma FragileLoses(e: Env)
    requires Fragile(e)
    ensures Extends(e, NamingPosix(e)) && !Within(Select(e), Select(NamingPosix(e)))
  {}

  /** Selecting more never removes a feature, exactly for the environments that
      are not fragile. */
  lemma MonotoneExactly(e: Env)
    ensures (forall f | Extends(e, f) :: Within(Select(e), Select(f))) <==> !Fragile(e)
  {
    if Fragile(e) {
      FragileLoses(e);
    } else {
      forall f | Extends(e, f)
        ensures Within(Select(e), Select(f))
      {
        SturdyIsMonotone(e, f);
      }
    }
  }

  /** In particular, once the default set is asked for by name. */
  lemma ExplicitDefaultIsMonotone(e: Env, f: Env)
    requires Extends(e, f) && ExplicitDefault(e)
    ensures Within(Select(e), Select(f))
  {
    SturdyIsMonotone(e, f);
  }

  /** _GNU_SOURCE enables all there is, except what only _FILE_OFFSET_BITS chooses. */
  lemma GnuIsGreatest(e: Env, f: Env)
    requires f.bundle.gnu
    ensures Within(Select(e).(files := Select(e).files.(offset64 := false)), Select(f))
  {}

  /** Feeding the rewritten macros through the header again selects the same
      features; only __USE_POSIX_IMPLICITLY is lost, exactly if it was set. */
  lemma ResolutionIsIdempotent(e: Env)
    requires !Malformed(e)
    ensures !Malformed(Rewrite(e)) && Rewrite(Rewrite(e)) == Rewrite(e)
    ensures SameFeatures(Select(Rewrite(e)), Select(e))
    ensures Select(Rewrite(e)) == Select(e) <==> !Select(e).posixImplicitly
  {}

  /** The standards contain one another as their editions do. */
  lemma StandardsAreNested(e: Env)
    ensures var u := Select(e);
            && (u.posix.posix199506 ==> u.posix.posix199309)
            && (u.posix.posix199309 ==> u.posix.posix2)
            && (u.posix.posix2 ==> u.posix.posix)
            && (u.xopen.xopen2k8 ==> u.xopen.xopen2k)
            && (u.xopen.xopen2k ==> u.c.isoc99 && u.c.isoc95)
            && (u.c.isoc11 ==> u.c.isoc99)
            && (u.c.isoc99 ==> u.c.isoc95)
            && (u.xopen.xopen2k8xsi ==> u.xopen.xopen2kxsi && u.xopen.xopen2k8)
            && (u.xopen.xopen2kxsi ==> u.xopen.unix98 && u.xopen.xopen2k)
            && (u.xopen.unix98 ==> u.xopen.extended && u.files.large)
            && (u.xopen.extended ==> u.xopen.xopen)
            && (u.xopen.xopen ==> u.posix.posix2)
            && (u.gnu ==> u.misc && u.files.large64 && u.xopen.xopen2k8xsi && u.c.isoc11)
            && (u.misc ==> u.xopen.xopen2k8 && u.posix.posix199506 && u.files.at)
  {}

  // ---- the threading macros -----------------------------------------------------

  /** e with _REENTRANT, _THREAD_SAFE or both defined as well. */
  function Threading(e: Env, reentrant: bool, threadSafe: bool): Env {
    e.(posix := e.posix.(reentrant := e.posix.reentrant || reentrant, threadSafe := e.posix.threadSafe || threadSafe))
  }

  /** The threading macros never lower anything: the level becomes the greater
      of what it was and 199506. */
  lemma ThreadsOnlyRaise(e: Env, reentrant: bool, threadSafe: bool)
    requires reentrant || threadSafe
    ensures var f := Threading(e, reentrant, threadSafe);
            && Within(Select(e), Select(f))
            && Level(f) == (if AtLeast(Level(e), 199506) then Level(e) else Number(199506))
            && (Malformed(f) ==> Malformed(e))
  {}

  const NOTHING := Env(Language(false, Undefined, false, false, false), Bundle(false, false, false, false),
                       Posix(false, Undefined, false, false), Xopen(Undefined, false),
                       Files(false, false, Undefined, false, true))

  function AtLevel199506(e: Env): Env {
    e.(posix := e.posix.(level := Number(199506)))
  }

  /** The threading macros are documented as equivalent to _POSIX_C_SOURCE=199506L.
      They are not: selecting nothing else, only the latter switches the default set off. */
  lemma NotASynonym()
    ensures Select(Threading(NOTHING, true, false)).misc && !Select(AtLevel199506(NOTHING)).misc
  {}

  /** Where neither is selected yet, the two agree exactly if nothing was chosen
      implicitly that goes beyond 199506 and that _XOPEN_SOURCE does not enable anyway. */
  lemma SynonymExactly(e: Env, reentrant: bool, threadSafe: bool)
    requires (reentrant || threadSafe) && !Threaded(e) && !Defined(e.posix.level)
    ensures SameFeatures(Select(Threading(e, reentrant, threadSafe)), Select(AtLevel199506(e))) <==>
              && !ImplicitDefault(e)
              && (ImplicitPosix(e) ==>
                    Defined(e.xopen.source) && (Value(e.xopen.source) < 700 || e.files.at))
  {}
}
