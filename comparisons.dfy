/**
  The scripts re-implement one pipeline with different keyword tables. The
  lemmas here state, for the same input, where their classifications agree
  and where they part.
*/
module Comparisons {
  import opened Text
  import opened Domain
  import opened Loaders
  import EtlPipeline
  import DatabaseSetup
  import FixDataLoading
  import LoadRealData
  import SimpleLoad
  import LoadYourData

  /**
    The critical keyword sets are nested: fix_data_loading.py's single
    keyword, then the two of the load_real_data.py family, then the three
    shared by simple_load.py and database_setup.py, then the four of the
    pipeline. A device critical under a smaller set is critical under every
    larger one.
  */
  lemma CriticalKeywordsNested(notes: string)
    ensures FixDataLoading.StatusOf(notes) == DeviceStatus.Critical ==> RiskStatus(notes) == DeviceStatus.Critical
    ensures RiskStatus(notes) == DeviceStatus.Critical ==> SimpleLoad.StatusOf(notes) == DeviceStatus.Critical
    ensures SimpleLoad.StatusOf(notes) == DeviceStatus.Critical <==> DatabaseSetup.StatusOf(notes) == DeviceStatus.Critical
    ensures DatabaseSetup.StatusOf(notes) == DeviceStatus.Critical ==>
            EtlPipeline.DetermineDeviceStatus(notes) == DeviceStatus.Critical
  {
    DatabaseSetup.StatusTable(notes);
    EtlPipeline.DeviceStatusTable(notes);
    SimpleLoad.StatusTable(notes);
  }

  /** The note "needs patch" is already lower-case. */
  lemma NeedsPatchIsLower()
    ensures Lower("needs patch") == "needs patch"
  {
    var l := "needs patch";
    assert forall k | 0 <= k < |l| :: !('A' <= l[k] <= 'Z');
  }

  /** The note "needs patch" contains none of the critical keywords. */
  lemma NeedsPatchNotCritical()
    ensures !Contains("needs patch", "no antivirus") && !Contains("needs patch", "outdated")
    ensures !Contains("needs patch", "no firewall") && !Contains("needs patch", "vulnerable")
  {
    var l := "needs patch";
    assert 'v' !in l && 'o' !in l;
    AbsentChar(l, "no antivirus", 'v');
    AbsentChar(l, "outdated", 'o');
    AbsentChar(l, "no firewall", 'o');
    AbsentChar(l, "vulnerable", 'v');
  }

  /** Of the warning keywords, the note "needs patch" contains "patch" only. */
  lemma NeedsPatchWarningKeywords()
    ensures Contains("needs patch", "patch")
    ensures !Contains("needs patch", "ssl") && !Contains("needs patch", "tls") && !Contains("needs patch", "update")
  {
    var l := "needs patch";
    ContainsAt(l, "patch", 6);
    assert 'l' !in l && 'u' !in l;
    AbsentChar(l, "ssl", 'l');
    AbsentChar(l, "tls", 'l');
    AbsentChar(l, "update", 'u');
  }

  /** "needs patch" is a warning for the pipeline, whose warning keywords include "patch". */
  lemma NeedsPatchWarnsInPipeline()
    ensures EtlPipeline.DetermineDeviceStatus("needs patch") == DeviceStatus.Warning
  {
    var l := "needs patch";
    NeedsPatchIsLower();
    NeedsPatchNotCritical();
    NeedsPatchWarningKeywords();
    AnyOfFour(l, "no antivirus", "outdated", "no firewall", "vulnerable");
    AnyOfFour(l, "ssl", "tls", "update", "patch");
  }

  /** "needs patch" is active for database_setup.py, which does not know "patch". */
  lemma NeedsPatchActiveInSetup()
    ensures DatabaseSetup.StatusOf("needs patch") == DeviceStatus.Active
  {
    var l := "needs patch";
    NeedsPatchIsLower();
    NeedsPatchNotCritical();
    NeedsPatchWarningKeywords();
    AnyOfThree(l, "no antivirus", "outdated", "no firewall");
    AnyOfThree(l, "ssl", "tls", "update");
  }

  /**
    A login label is a critical threat everywhere except in
    fix_data_loading.py, where the same threat is only a warning.
  */
  lemma LoginSeverityDiffers(eventType: string)
    requires Contains(Lower(eventType), "login")
    ensures var l := Lower(eventType);
      && EtlPipeline.CategorizeSecurityEvent(eventType) == EventClass(LoginFailure, Severity.Critical, true)
      && DatabaseSetup.EventClassOf(l) == EventClass(LoginFailure, Severity.Critical, true)
      && LoadRealData.EventClassOf(l) == EventClass(LoginFailure, Severity.Critical, true)
      && SimpleLoad.SimpleClass(l) == EventClass(LoginFailure, Severity.Critical, true)
      && LoginClass(l) == EventClass(LoginFailure, Severity.Critical, true)
      && FixDataLoading.EventClassOf(l) == EventClass(LoginFailure, Severity.Warning, true)
  {
  }

  /**
    A checkout label (without "login") is never a threat, but the scripts
    disagree on what it is: a warning of suspicious traffic in the
    pipeline, load_real_data.py and simple_load.py; an informational
    transaction in database_setup.py; informational traffic in
    fix_data_loading.py and the clean loaders; and in load_your_data.py a
    warning of suspicious traffic again.
  */
  lemma CheckoutMappings(eventType: string)
    requires !Contains(Lower(eventType), "login") && Contains(Lower(eventType), "checkout")
    ensures var l := Lower(eventType);
      && EtlPipeline.CategorizeSecurityEvent(eventType) == EventClass(SuspiciousTraffic, Severity.Warning, false)
      && LoadRealData.EventClassOf(l) == EventClass(SuspiciousTraffic, Severity.Warning, false)
      && SimpleLoad.SimpleClass(l) == EventClass(SuspiciousTraffic, Severity.Warning, false)
      && DatabaseSetup.EventClassOf(l) == EventClass(Transaction, Info, false)
      && FixDataLoading.EventClassOf(l) == EventClass(SuspiciousTraffic, Info, false)
      && LoginClass(l) == EventClass(SuspiciousTraffic, Info, false)
      && LoadYourData.YourEvent(EventRow(Some(eventType), None, None, None)).category == SuspiciousTraffic
      && LoadYourData.YourEvent(EventRow(Some(eventType), None, None, None)).severity == Severity.Warning
  {
  }

  /**
    A role naming none of router, server, printer is a workstation for the
    pipeline and the get-or-create loaders, but a server for simple_load.py
    and clean_load.py; a role naming a router is a router for all of them.
  */
  lemma DefaultTypeDiffers(role: string)
    ensures var l := Lower(role);
      !Contains(l, "router") && !Contains(l, "server") && !Contains(l, "printer") ==>
        && EtlPipeline.CategorizeDeviceType(role) == Workstation
        && RoleType(l) == Workstation
        && ServerUnlessNamed(l) == Server
    ensures var l := Lower(role);
      Contains(l, "router") ==>
        EtlPipeline.CategorizeDeviceType(role) == RoleType(l) == ServerUnlessNamed(l) == Router
  {
  }
}
