/** The methods of HTTP requests by their names and numbers (example/fstack0/http_parser.h), letter by letter. */
module HttpMethods {
  import opened Options
  import opened HttpSpec

  /** The method that the letters so far stand for, as the parser guesses it. */
  function Guess(s: string): Option<nat> {
    if s == "" then None
    else if |s| == 1 then FirstMethod(s[0])
    else
      match Guess(s[..|s|-1])
      case None => None
      case Some(v) => Follow(v, |s| - 1, s[|s|-1])
  }

  /** One more letter: it goes on with the method, or leads to another one. */
  function Follow(verb: nat, index: nat, c: char): Option<nat> {
    if CharAt(MethodName(verb), index) == c then Some(verb)
    else if 'A' <= c <= 'Z' || c == '-' then SwitchMethod(verb, index, c)
    else None
  }

  lemma First(s: string, c: char, v: nat)
    requires s == [c] && FirstMethod(c) == Some(v)
    ensures Guess(s) == Some(v)
  {
  }

  lemma Letter(s: string, v: nat, c: char, t: string, w: nat)
    requires Guess(s) == Some(v) && s != "" && t == s + [c] && Follow(v, |s|, c) == Some(w)
    ensures Guess(t) == Some(w)
  {
    hide Follow;
    assert t[..|t|-1] == s;
  }

  /** Every method is recognised by its name. */
  lemma EveryMethod(m: nat)
    requires m < 34
    ensures Guess(MethodName(m)) == Some(m)
  {
    hide Guess;
    match m {
      case 0 => IsDelete();
      case 1 => IsGet();
      case 2 => IsHead();
      case 3 => IsPost();
      case 4 => IsPut();
      case 5 => IsConnect();
      case 6 => IsOptions();
      case 7 => IsTrace();
      case 8 => IsCopy();
      case 9 => IsLock();
      case 10 => IsMkcol();
      case 11 => IsMove();
      case 12 => IsPropfind();
      case 13 => IsProppatch();
      case 14 => IsSearch();
      case 15 => IsUnlock();
      case 16 => IsBind();
      case 17 => IsRebind();
      case 18 => IsUnbind();
      case 19 => IsAcl();
      case 20 => IsReport();
      case 21 => IsMkactivity();
      case 22 => IsCheckout();
      case 23 => IsMerge();
      case 24 => IsMsearch();
      case 25 => IsNotify();
      case 26 => IsSubscribe();
      case 27 => IsUnsubscribe();
      case 28 => IsPatch();
      case 29 => IsPurge();
      case 30 => IsMkcalendar();
      case 31 => IsLink();
      case 32 => IsUnlink();
      case 33 => IsSource();
      case _ =>
    }
  }

  lemma IsDelete()
    ensures MethodName(0) == "DELETE" && Guess("DELETE") == Some(0)
  {
    hide Guess;
    First("D", 'D', 0);
    Letter("D", 0, 'E', "DE", 0);
    Letter("DE", 0, 'L', "DEL", 0);
    Letter("DEL", 0, 'E', "DELE", 0);
    Letter("DELE", 0, 'T', "DELET", 0);
    Letter("DELET", 0, 'E', "DELETE", 0);
  }

  lemma IsGet()
    ensures MethodName(1) == "GET" && Guess("GET") == Some(1)
  {
    hide Guess;
    First("G", 'G', 1);
    Letter("G", 1, 'E', "GE", 1);
    Letter("GE", 1, 'T', "GET", 1);
  }

  lemma IsHead()
    ensures MethodName(2) == "HEAD" && Guess("HEAD") == Some(2)
  {
    hide Guess;
    First("H", 'H', 2);
    Letter("H", 2, 'E', "HE", 2);
    Letter("HE", 2, 'A', "HEA", 2);
    Letter("HEA", 2, 'D', "HEAD", 2);
  }

  lemma IsPost()
    ensures MethodName(3) == "POST" && Guess("POST") == Some(3)
  {
    hide Guess;
    First("P", 'P', 3);
    Letter("P", 3, 'O', "PO", 3);
    Letter("PO", 3, 'S', "POS", 3);
    Letter("POS", 3, 'T', "POST", 3);
  }

  lemma IsPut()
    ensures MethodName(4) == "PUT" && Guess("PUT") == Some(4)
  {
    hide Guess;
    First("P", 'P', 3);
    Letter("P", 3, 'U', "PU", 4);
    Letter("PU", 4, 'T', "PUT", 4);
  }

  lemma IsConnect()
    ensures MethodName(5) == "CONNECT" && Guess("CONNECT") == Some(5)
  {
    hide Guess;
    First("C", 'C', 5);
    Letter("C", 5, 'O', "CO", 5);
    Letter("CO", 5, 'N', "CON", 5);
    Letter("CON", 5, 'N', "CONN", 5);
    Letter("CONN", 5, 'E', "CONNE", 5);
    Letter("CONNE", 5, 'C', "CONNEC", 5);
    Letter("CONNEC", 5, 'T', "CONNECT", 5);
  }

  lemma IsOptions()
    ensures MethodName(6) == "OPTIONS" && Guess("OPTIONS") == Some(6)
  {
    hide Guess;
    First("O", 'O', 6);
    Letter("O", 6, 'P', "OP", 6);
    Letter("OP", 6, 'T', "OPT", 6);
    Letter("OPT", 6, 'I', "OPTI", 6);
    Letter("OPTI", 6, 'O', "OPTIO", 6);
    Letter("OPTIO", 6, 'N', "OPTION", 6);
    Letter("OPTION", 6, 'S', "OPTIONS", 6);
  }

  lemma IsTrace()
    ensures MethodName(7) == "TRACE" && Guess("TRACE") == Some(7)
  {
    hide Guess;
    First("T", 'T', 7);
    Letter("T", 7, 'R', "TR", 7);
    Letter("TR", 7, 'A', "TRA", 7);
    Letter("TRA", 7, 'C', "TRAC", 7);
    Letter("TRAC", 7, 'E', "TRACE", 7);
  }

  lemma IsCopy()
    ensures MethodName(8) == "COPY" && Guess("COPY") == Some(8)
  {
    hide Guess;
    First("C", 'C', 5);
    Letter("C", 5, 'O', "CO", 5);
    Letter("CO", 5, 'P', "COP", 8);
    Letter("COP", 8, 'Y', "COPY", 8);
  }

  lemma IsLock()
    ensures MethodName(9) == "LOCK" && Guess("LOCK") == Some(9)
  {
    hide Guess;
    First("L", 'L', 9);
    Letter("L", 9, 'O', "LO", 9);
    Letter("LO", 9, 'C', "LOC", 9);
    Letter("LOC", 9, 'K', "LOCK", 9);
  }

  lemma IsMkcol()
    ensures MethodName(10) == "MKCOL" && Guess("MKCOL") == Some(10)
  {
    hide Guess;
    First("M", 'M', 10);
    Letter("M", 10, 'K', "MK", 10);
    Letter("MK", 10, 'C', "MKC", 10);
    Letter("MKC", 10, 'O', "MKCO", 10);
    Letter("MKCO", 10, 'L', "MKCOL", 10);
  }

  lemma IsMove()
    ensures MethodName(11) == "MOVE" && Guess("MOVE") == Some(11)
  {
    hide Guess;
    First("M", 'M', 10);
    Letter("M", 10, 'O', "MO", 11);
    Letter("MO", 11, 'V', "MOV", 11);
    Letter("MOV", 11, 'E', "MOVE", 11);
  }

  lemma IsPropfind()
    ensures MethodName(12) == "PROPFIND" && Guess("PROPFIND") == Some(12)
  {
    hide Guess;
    First("P", 'P', 3);
    Letter("P", 3, 'R', "PR", 12);
    Letter("PR", 12, 'O', "PRO", 12);
    Letter("PRO", 12, 'P', "PROP", 12);
    Letter("PROP", 12, 'F', "PROPF", 12);
    Letter("PROPF", 12, 'I', "PROPFI", 12);
    Letter("PROPFI", 12, 'N', "PROPFIN", 12);
    Letter("PROPFIN", 12, 'D', "PROPFIND", 12);
  }

  lemma IsProppatch()
    ensures MethodName(13) == "PROPPATCH" && Guess("PROPPATCH") == Some(13)
  {
    hide Guess;
    First("P", 'P', 3);
    Letter("P", 3, 'R', "PR", 12);
    Letter("PR", 12, 'O', "PRO", 12);
    Letter("PRO", 12, 'P', "PROP", 12);
    Letter("PROP", 12, 'P', "PROPP", 13);
    Letter("PROPP", 13, 'A', "PROPPA", 13);
    Letter("PROPPA", 13, 'T', "PROPPAT", 13);
    Letter("PROPPAT", 13, 'C', "PROPPATC", 13);
    Letter("PROPPATC", 13, 'H', "PROPPATCH", 13);
  }

  lemma IsSearch()
    ensures MethodName(14) == "SEARCH" && Guess("SEARCH") == Some(14)
  {
    hide Guess;
    First("S", 'S', 26);
    Letter("S", 26, 'E', "SE", 14);
    Letter("SE", 14, 'A', "SEA", 14);
    Letter("SEA", 14, 'R', "SEAR", 14);
    Letter("SEAR", 14, 'C', "SEARC", 14);
    Letter("SEARC", 14, 'H', "SEARCH", 14);
  }

  lemma IsUnlock()
    ensures MethodName(15) == "UNLOCK" && Guess("UNLOCK") == Some(15)
  {
    hide Guess;
    First("U", 'U', 15);
    Letter("U", 15, 'N', "UN", 15);
    Letter("UN", 15, 'L', "UNL", 15);
    Letter("UNL", 15, 'O', "UNLO", 15);
    Letter("UNLO", 15, 'C', "UNLOC", 15);
    Letter("UNLOC", 15, 'K', "UNLOCK", 15);
  }

  lemma IsBind()
    ensures MethodName(16) == "BIND" && Guess("BIND") == Some(16)
  {
    hide Guess;
    First("B", 'B', 16);
    Letter("B", 16, 'I', "BI", 16);
    Letter("BI", 16, 'N', "BIN", 16);
    Letter("BIN", 16, 'D', "BIND", 16);
  }

  lemma IsRebind()
    ensures MethodName(17) == "REBIND" && Guess("REBIND") == Some(17)
  {
    hide Guess;
    First("R", 'R', 20);
    Letter("R", 20, 'E', "RE", 20);
    Letter("RE", 20, 'B', "REB", 17);
    Letter("REB", 17, 'I', "REBI", 17);
    Letter("REBI", 17, 'N', "REBIN", 17);
    Letter("REBIN", 17, 'D', "REBIND", 17);
  }

  lemma IsUnbind()
    ensures MethodName(18) == "UNBIND" && Guess("UNBIND") == Some(18)
  {
    hide Guess;
    First("U", 'U', 15);
    Letter("U", 15, 'N', "UN", 15);
    Letter("UN", 15, 'B', "UNB", 18);
    Letter("UNB", 18, 'I', "UNBI", 18);
    Letter("UNBI", 18, 'N', "UNBIN", 18);
    Letter("UNBIN", 18, 'D', "UNBIND", 18);
  }

  lemma IsAcl()
    ensures MethodName(19) == "ACL" && Guess("ACL") == Some(19)
  {
    hide Guess;
    First("A", 'A', 19);
    Letter("A", 19, 'C', "AC", 19);
    Letter("AC", 19, 'L', "ACL", 19);
  }

  lemma IsReport()
    ensures MethodName(20) == "REPORT" && Guess("REPORT") == Some(20)
  {
    hide Guess;
    First("R", 'R', 20);
    Letter("R", 20, 'E', "RE", 20);
    Letter("RE", 20, 'P', "REP", 20);
    Letter("REP", 20, 'O', "REPO", 20);
    Letter("REPO", 20, 'R', "REPOR", 20);
    Letter("REPOR", 20, 'T', "REPORT", 20);
  }

  lemma IsMkactivity()
    ensures MethodName(21) == "MKACTIVITY" && Guess("MKACTIVITY") == Some(21)
  {
    hide Guess;
    First("M", 'M', 10);
    Letter("M", 10, 'K', "MK", 10);
    Letter("MK", 10, 'A', "MKA", 21);
    Letter("MKA", 21, 'C', "MKAC", 21);
    Letter("MKAC", 21, 'T', "MKACT", 21);
    Letter("MKACT", 21, 'I', "MKACTI", 21);
    Letter("MKACTI", 21, 'V', "MKACTIV", 21);
    Letter("MKACTIV", 21, 'I', "MKACTIVI", 21);
    Letter("MKACTIVI", 21, 'T', "MKACTIVIT", 21);
    Letter("MKACTIVIT", 21, 'Y', "MKACTIVITY", 21);
  }

  lemma IsCheckout()
    ensures MethodName(22) == "CHECKOUT" && Guess("CHECKOUT") == Some(22)
  {
    hide Guess;
    First("C", 'C', 5);
    Letter("C", 5, 'H', "CH", 22);
    Letter("CH", 22, 'E', "CHE", 22);
    Letter("CHE", 22, 'C', "CHEC", 22);
    Letter("CHEC", 22, 'K', "CHECK", 22);
    Letter("CHECK", 22, 'O', "CHECKO", 22);
    Letter("CHECKO", 22, 'U', "CHECKOU", 22);
    Letter("CHECKOU", 22, 'T', "CHECKOUT", 22);
  }

  lemma IsMerge()
    ensures MethodName(23) == "MERGE" && Guess("MERGE") == Some(23)
  {
    hide Guess;
    First("M", 'M', 10);
    Letter("M", 10, 'E', "ME", 23);
    Letter("ME", 23, 'R', "MER", 23);
    Letter("MER", 23, 'G', "MERG", 23);
    Letter("MERG", 23, 'E', "MERGE", 23);
  }

  lemma IsMsearch()
    ensures MethodName(24) == "M-SEARCH" && Guess("M-SEARCH") == Some(24)
  {
    hide Guess;
    First("M", 'M', 10);
    Letter("M", 10, '-', "M-", 24);
    Letter("M-", 24, 'S', "M-S", 24);
    Letter("M-S", 24, 'E', "M-SE", 24);
    Letter("M-SE", 24, 'A', "M-SEA", 24);
    Letter("M-SEA", 24, 'R', "M-SEAR", 24);
    Letter("M-SEAR", 24, 'C', "M-SEARC", 24);
    Letter("M-SEARC", 24, 'H', "M-SEARCH", 24);
  }

  lemma IsNotify()
    ensures MethodName(25) == "NOTIFY" && Guess("NOTIFY") == Some(25)
  {
    hide Guess;
    First("N", 'N', 25);
    Letter("N", 25, 'O', "NO", 25);
    Letter("NO", 25, 'T', "NOT", 25);
    Letter("NOT", 25, 'I', "NOTI", 25);
    Letter("NOTI", 25, 'F', "NOTIF", 25);
    Letter("NOTIF", 25, 'Y', "NOTIFY", 25);
  }

  lemma IsSubscribe()
    ensures MethodName(26) == "SUBSCRIBE" && Guess("SUBSCRIBE") == Some(26)
  {
    hide Guess;
    First("S", 'S', 26);
    Letter("S", 26, 'U', "SU", 26);
    Letter("SU", 26, 'B', "SUB", 26);
    Letter("SUB", 26, 'S', "SUBS", 26);
    Letter("SUBS", 26, 'C', "SUBSC", 26);
    Letter("SUBSC", 26, 'R', "SUBSCR", 26);
    Letter("SUBSCR", 26, 'I', "SUBSCRI", 26);
    Letter("SUBSCRI", 26, 'B', "SUBSCRIB", 26);
    Letter("SUBSCRIB", 26, 'E', "SUBSCRIBE", 26);
  }

  lemma IsUnsubscribe()
    ensures MethodName(27) == "UNSUBSCRIBE" && Guess("UNSUBSCRIBE") == Some(27)
  {
    hide Guess;
    First("U", 'U', 15);
    Letter("U", 15, 'N', "UN", 15);
    Letter("UN", 15, 'S', "UNS", 27);
    Letter("UNS", 27, 'U', "UNSU", 27);
    Letter("UNSU", 27, 'B', "UNSUB", 27);
    Letter("UNSUB", 27, 'S', "UNSUBS", 27);
    Letter("UNSUBS", 27, 'C', "UNSUBSC", 27);
    Letter("UNSUBSC", 27, 'R', "UNSUBSCR", 27);
    Letter("UNSUBSCR", 27, 'I', "UNSUBSCRI", 27);
    Letter("UNSUBSCRI", 27, 'B', "UNSUBSCRIB", 27);
    Letter("UNSUBSCRIB", 27, 'E', "UNSUBSCRIBE", 27);
  }

  lemma IsPatch()
    ensures MethodName(28) == "PATCH" && Guess("PATCH") == Some(28)
  {
    hide Guess;
    First("P", 'P', 3);
    Letter("P", 3, 'A', "PA", 28);
    Letter("PA", 28, 'T', "PAT", 28);
    Letter("PAT", 28, 'C', "PATC", 28);
    Letter("PATC", 28, 'H', "PATCH", 28);
  }

  lemma IsPurge()
    ensures MethodName(29) == "PURGE" && Guess("PURGE") == Some(29)
  {
    hide Guess;
    First("P", 'P', 3);
    Letter("P", 3, 'U', "PU", 4);
    Letter("PU", 4, 'R', "PUR", 29);
    Letter("PUR", 29, 'G', "PURG", 29);
    Letter("PURG", 29, 'E', "PURGE", 29);
  }

  lemma IsMkcalendar()
    ensures MethodName(30) == "MKCALENDAR" && Guess("MKCALENDAR") == Some(30)
  {
    hide Guess;
    First("M", 'M', 10);
    Letter("M", 10, 'K', "MK", 10);
    Letter("MK", 10, 'C', "MKC", 10);
    Letter("MKC", 10, 'A', "MKCA", 30);
    Letter("MKCA", 30, 'L', "MKCAL", 30);
    Letter("MKCAL", 30, 'E', "MKCALE", 30);
    Letter("MKCALE", 30, 'N', "MKCALEN", 30);
    Letter("MKCALEN", 30, 'D', "MKCALEND", 30);
    Letter("MKCALEND", 30, 'A', "MKCALENDA", 30);
    Letter("MKCALENDA", 30, 'R', "MKCALENDAR", 30);
  }

  lemma IsLink()
    ensures MethodName(31) == "LINK" && Guess("LINK") == Some(31)
  {
    hide Guess;
    First("L", 'L', 9);
    Letter("L", 9, 'I', "LI", 31);
    Letter("LI", 31, 'N', "LIN", 31);
    Letter("LIN", 31, 'K', "LINK", 31);
  }

  lemma IsUnlink()
    ensures MethodName(32) == "UNLINK" && Guess("UNLINK") == Some(32)
  {
    hide Guess;
    First("U", 'U', 15);
    Letter("U", 15, 'N', "UN", 15);
    Letter("UN", 15, 'L', "UNL", 15);
    Letter("UNL", 15, 'I', "UNLI", 32);
    Letter("UNLI", 32, 'N', "UNLIN", 32);
    Letter("UNLIN", 32, 'K', "UNLINK", 32);
  }

  lemma IsSource()
    ensures MethodName(33) == "SOURCE" && Guess("SOURCE") == Some(33)
  {
    hide Guess;
    First("S", 'S', 26);
    Letter("S", 26, 'O', "SO", 33);
    Letter("SO", 33, 'U', "SOU", 33);
    Letter("SOU", 33, 'R', "SOUR", 33);
    Letter("SOUR", 33, 'C', "SOURC", 33);
    Letter("SOURC", 33, 'E', "SOURCE", 33);
  }
}
