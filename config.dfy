/** BankingConfigProperties: the banking.* settings with their defaults and
    declared bounds, and the feature, compliance, sensitive-field and country
    lookups over them. Durations are in seconds. */
module BankingConfig {
  import opened Text
  import TM = TransactionModel
  import TS = TransactionStore
  import EH = EventHandling

  datatype TransactionConfig = TransactionConfig(
    maxTransactionAmount: real,
    largeTransactionThreshold: real,
    dailyTransactionLimit: real,
    supportedCurrencies: seq<string>,
    supportedTransactionTypes: seq<string>,
    timeoutSeconds: int,
    maxRetryAttempts: int,
    retryDelay: int,
    enableIdempotencyCheck: bool,
    enableFraudDetection: bool,
    fraudThreshold: real,
    transactionExpirationTime: int)

  datatype SecurityConfig = SecurityConfig(
    jwtSecret: string,
    jwtExpirationSeconds: int,
    refreshTokenExpirationSeconds: int,
    maxLoginAttempts: int,
    loginAttemptWindow: int,
    accountLockoutDuration: int,
    allowedOrigins: seq<string>,
    rateLimitRequestsPerMinute: int,
    enableCsrfProtection: bool,
    enableHttpsOnly: bool,
    encryptionAlgorithm: string,
    hashingAlgorithm: string,
    hashingIterations: int)

  datatype AuditConfig = AuditConfig(
    enableMethodAudit: bool,
    enableDataModificationAudit: bool,
    enableSecurityAudit: bool,
    enablePerformanceAudit: bool,
    auditRetentionDays: int,
    sensitiveFields: seq<string>,
    maskSensitiveData: bool,
    enableRealTimeAlerting: bool,
    criticalEvents: seq<string>,
    auditLogLevel: string,
    auditBatchProcessingInterval: int)

  datatype MonitoringConfig = MonitoringConfig(
    enableMetrics: bool,
    enableTracing: bool,
    enableHealthChecks: bool,
    metricsIntervalSeconds: int,
    healthCheckIntervalSeconds: int,
    healthCheckTimeout: int,
    customMetrics: seq<string>,
    alertThresholdPercentile: int,
    performanceThresholdMs: int,
    errorRateThresholdPercent: int,
    alertChannels: map<string, string>)

  datatype ComplianceConfig = ComplianceConfig(
    enablePciDssCompliance: bool,
    enableSoxCompliance: bool,
    enableGdprCompliance: bool,
    enableKycChecks: bool,
    enableAmlScreening: bool,
    amlThreshold: real,
    watchlistCountries: seq<string>,
    restrictedCountries: seq<string>,
    dataRetentionDays: int,
    complianceReportingIntervalHours: int,
    enableAutomaticReporting: bool,
    regulatoryRegion: string,
    requiredDocuments: seq<string>,
    documentExpirationPeriod: int,
    riskToleranceLevel: int)

  datatype Config = Config(
    transaction: TransactionConfig,
    security: SecurityConfig,
    audit: AuditConfig,
    monitoring: MonitoringConfig,
    compliance: ComplianceConfig)

  /** The double literal 0.7, as the exact value of the binary64 number. */
  const DefaultFraudThreshold: real := 0.6999999999999999555910790149937383830547332763671875

  // ---------------------------------------------------------------------------
  // The declared constraints, one settings group at a time
  // ---------------------------------------------------------------------------

  /** @NotEmpty on the lists and @Min/@Max on the integers of TransactionConfig. */
  predicate TransactionBoundsOk(t: TransactionConfig) {
    && |t.supportedCurrencies| > 0
    && |t.supportedTransactionTypes| > 0
    && 1 <= t.timeoutSeconds <= 3600
    && 1 <= t.maxRetryAttempts <= 10
  }

  /** SecurityConfig's @NotEmpty strings and lists and its @Min/@Max integers. */
  predicate SecurityBoundsOk(c: SecurityConfig) {
    && |c.jwtSecret| > 0
    && 300 <= c.jwtExpirationSeconds <= 86400
    && 1800 <= c.refreshTokenExpirationSeconds <= 604800
    && 1 <= c.maxLoginAttempts <= 100
    && |c.allowedOrigins| > 0
    && 1 <= c.rateLimitRequestsPerMinute <= 10000
    && |c.encryptionAlgorithm| > 0
    && |c.hashingAlgorithm| > 0
    && 10000 <= c.hashingIterations <= 1000000
  }

  /** AuditConfig's retention bound and its @NotEmpty lists and level. */
  predicate AuditBoundsOk(a: AuditConfig) {
    && 1 <= a.auditRetentionDays <= 365
    && |a.sensitiveFields| > 0
    && |a.criticalEvents| > 0
    && |a.auditLogLevel| > 0
  }

  /** MonitoringConfig's @Min/@Max integers and @NotEmpty collections. */
  predicate MonitoringBoundsOk(m: MonitoringConfig) {
    && 1 <= m.metricsIntervalSeconds <= 300
    && 1 <= m.healthCheckIntervalSeconds <= 3600
    && |m.customMetrics| > 0
    && 1 <= m.alertThresholdPercentile <= 99
    && 100 <= m.performanceThresholdMs <= 10000
    && 1 <= m.errorRateThresholdPercent <= 100
    && |m.alertChannels| > 0
  }

  /** ComplianceConfig's @NotEmpty collections and region and its @Min/@Max
      integers, among them dataRetentionDays in [1, 365]. */
  predicate ComplianceBoundsOk(c: ComplianceConfig) {
    && |c.watchlistCountries| > 0
    && |c.restrictedCountries| > 0
    && 1 <= c.dataRetentionDays <= 365
    && 1 <= c.complianceReportingIntervalHours <= 24
    && |c.regulatoryRegion| > 0
    && |c.requiredDocuments| > 0
    && 1 <= c.riskToleranceLevel <= 100
  }

  /** Every constraint declared on the nested settings. */
  predicate WithinDeclaredBounds(c: Config) {
    && TransactionBoundsOk(c.transaction)
    && SecurityBoundsOk(c.security)
    && AuditBoundsOk(c.audit)
    && MonitoringBoundsOk(c.monitoring)
    && ComplianceBoundsOk(c.compliance)
  }

  /** The field initialisers, one settings group at a time. */
  function DefaultTransaction(): (t: TransactionConfig)
    ensures TransactionBoundsOk(t)
    ensures t.largeTransactionThreshold == 10000.00 && t.maxTransactionAmount == 1000000.00
    ensures t.fraudThreshold == DefaultFraudThreshold && t.maxRetryAttempts == 3
  {
    TransactionConfig(1000000.00, 10000.00, 50000.00, ["USD", "EUR", "GBP"],
      ["DEPOSIT", "WITHDRAWAL", "TRANSFER"], 30, 3, 1, true, true, DefaultFraudThreshold, 24 * 3600)
  }

  function DefaultSecurity(): (c: SecurityConfig)
    ensures SecurityBoundsOk(c)
    ensures c.jwtExpirationSeconds == 3600 && c.maxLoginAttempts == 5
  {
    SecurityConfig("bankcore-secret-key-change-in-production", 3600, 86400, 5, 15 * 60, 30 * 60,
      ["http://localhost:3000", "https://bankcore.com"], 100, true, true,
      "AES/GCM/NoPadding", "PBKDF2WithHmacSHA256", 100000)
  }

  function DefaultAudit(): (a: AuditConfig)
    ensures AuditBoundsOk(a)
    ensures a.sensitiveFields == ["password", "ssn", "accountNumber", "cardNumber"]
  {
    AuditConfig(true, true, true, true, 90, ["password", "ssn", "accountNumber", "cardNumber"],
      true, true, ["SECURITY_VIOLATION", "FRAUD_DETECTED", "LARGE_TRANSACTION", "COMPLIANCE_FAILURE"],
      "INFO", 30)
  }

  function DefaultMonitoring(): (m: MonitoringConfig)
    ensures MonitoringBoundsOk(m)
    ensures m.enableMetrics && m.enableTracing && m.enableHealthChecks
  {
    MonitoringConfig(true, true, true, 10, 30, 5,
      ["transaction.processing.time", "fraud.detection.score", "compliance.check.duration",
       "database.connection.pool.active"], 95, 500, 5,
      map["email" := "alerts@bankcore.com", "slack" := "#banking-alerts", "pagerduty" := "banking-service"])
  }

  /** The one default that breaks its own bound: 2555 days of retention. */
  function DefaultCompliance(): (c: ComplianceConfig)
    ensures !ComplianceBoundsOk(c) && c.dataRetentionDays == 2555
    ensures ComplianceBoundsOk(c.(dataRetentionDays := 365))
    ensures c.amlThreshold == 10000.00
    ensures c.watchlistCountries == ["", "IR", "KP", "SY"] && c.restrictedCountries == ["", "AF", "BY", "MM", "ZW"]
  {
    ComplianceConfig(true, true, true, true, true, 10000.00, ["", "IR", "KP", "SY"],
      ["", "AF", "BY", "MM", "ZW"], 2555, 24, true, "US",
      ["identity_verification", "address_proof", "income_verification"], 365 * 86400, 70)
  }

  /** The settings as initialised: four groups within their declared
      constraints, and the compliance group outside them. */
  function Defaults(): (c: Config)
    ensures TransactionBoundsOk(c.transaction) && SecurityBoundsOk(c.security)
    ensures AuditBoundsOk(c.audit) && MonitoringBoundsOk(c.monitoring)
    ensures !ComplianceBoundsOk(c.compliance) && !WithinDeclaredBounds(c)
  {
    Config(DefaultTransaction(), DefaultSecurity(), DefaultAudit(), DefaultMonitoring(), DefaultCompliance())
  }

  /** The defaults carry the same limits the service, the entity and the event
      handler hard-code instead of reading them: 10000.00 for large
      transactions and AML, 1000000.00 as maximum amount and 0.7 for fraud. */
  lemma DefaultsMatchHardCodedLimits()
    ensures DefaultTransaction().largeTransactionThreshold == TS.ApprovalLimit == EH.ComplianceThreshold
    ensures DefaultCompliance().amlThreshold == EH.ComplianceThreshold
    ensures DefaultTransaction().maxTransactionAmount == TM.MaxAmount
    ensures DefaultTransaction().fraudThreshold == EH.FraudThreshold
  {
  }

  /** The default retention of 2555 days (seven years) breaks its own
      @Max(365); every other default is within its bounds. */
  lemma DefaultRetentionOutOfBounds()
    ensures !WithinDeclaredBounds(Defaults())
    ensures Defaults().compliance.dataRetentionDays == 2555
    ensures WithinDeclaredBounds(Defaults().(compliance := Defaults().compliance.(dataRetentionDays := 365)))
  {
  }

  // ---------------------------------------------------------------------------
  // Lookups
  // ---------------------------------------------------------------------------

  const FeatureNames: set<string> := {"fraud_detection", "idempotency_check", "csrf_protection",
                                      "https_only", "real_time_alerts", "automatic_reporting"}

  /** isFeatureEnabled's switch, on the already lower-cased name. */
  function FeatureFlag(c: Config, key: string): bool {
    if key == "fraud_detection" then c.transaction.enableFraudDetection
    else if key == "idempotency_check" then c.transaction.enableIdempotencyCheck
    else if key == "csrf_protection" then c.security.enableCsrfProtection
    else if key == "https_only" then c.security.enableHttpsOnly
    else if key == "real_time_alerts" then c.audit.enableRealTimeAlerting
    else if key == "automatic_reporting" then c.compliance.enableAutomaticReporting
    else false
  }

  /** isFeatureEnabled: each of the six feature names, in any case, reads
      its own flag, and no other name is ever on. */
  function IsFeatureEnabled(c: Config, featureName: string): (r: bool)
    ensures r ==> ToLower(featureName) in FeatureNames
    ensures ToLower(featureName) == "fraud_detection" ==> r == c.transaction.enableFraudDetection
    ensures ToLower(featureName) == "idempotency_check" ==> r == c.transaction.enableIdempotencyCheck
    ensures ToLower(featureName) == "csrf_protection" ==> r == c.security.enableCsrfProtection
    ensures ToLower(featureName) == "https_only" ==> r == c.security.enableHttpsOnly
    ensures ToLower(featureName) == "real_time_alerts" ==> r == c.audit.enableRealTimeAlerting
    ensures ToLower(featureName) == "automatic_reporting" ==> r == c.compliance.enableAutomaticReporting
  {
    FeatureFlag(c, ToLower(featureName))
  }

  const ComplianceTypes: set<string> := {"pci", "sox", "gdpr", "kyc", "aml"}

  /** isComplianceRequired's switch, on the already lower-cased type. */
  function ComplianceFlag(c: Config, key: string): bool {
    if key == "pci" then c.compliance.enablePciDssCompliance
    else if key == "sox" then c.compliance.enableSoxCompliance
    else if key == "gdpr" then c.compliance.enableGdprCompliance
    else if key == "kyc" then c.compliance.enableKycChecks
    else if key == "aml" then c.compliance.enableAmlScreening
    else false
  }

  /** isComplianceRequired: each of the five compliance types, in any case,
      reads its own flag, and no other type is ever required. */
  function IsComplianceRequired(c: Config, kind: string): (r: bool)
    ensures r ==> ToLower(kind) in ComplianceTypes
    ensures ToLower(kind) == "pci" ==> r == c.compliance.enablePciDssCompliance
    ensures ToLower(kind) == "sox" ==> r == c.compliance.enableSoxCompliance
    ensures ToLower(kind) == "gdpr" ==> r == c.compliance.enableGdprCompliance
    ensures ToLower(kind) == "kyc" ==> r == c.compliance.enableKycChecks
    ensures ToLower(kind) == "aml" ==> r == c.compliance.enableAmlScreening
  {
    ComplianceFlag(c, ToLower(kind))
  }

  /** isSensitiveField: the lower-cased name looked up as it is, so only a
      configured entry without upper-case letters can ever match. */
  predicate IsSensitiveField(c: Config, fieldName: string)
    ensures IsSensitiveField(c, fieldName) ==>
      exists k | k in c.audit.sensitiveFields :: |k| == |fieldName| && NoUpperAscii(k)
  {
    ToLower(fieldName) in c.audit.sensitiveFields
  }

  /** isRestrictedCountry: the upper-cased code looked up as it is, so only
      a configured entry without lower-case letters can ever match. */
  predicate IsRestrictedCountry(c: Config, countryCode: string)
    ensures IsRestrictedCountry(c, countryCode) ==>
      exists k | k in c.compliance.restrictedCountries :: |k| == |countryCode| && NoLowerAscii(k)
  {
    ToUpper(countryCode) in c.compliance.restrictedCountries
  }

  /** isWatchlistCountry: the upper-cased code looked up as it is, so only
      a configured entry without lower-case letters can ever match. */
  predicate IsWatchlistCountry(c: Config, countryCode: string)
    ensures IsWatchlistCountry(c, countryCode) ==>
      exists k | k in c.compliance.watchlistCountries :: |k| == |countryCode| && NoLowerAscii(k)
  {
    ToUpper(countryCode) in c.compliance.watchlistCountries
  }

  /** Feature and compliance lookups ignore case; a name outside the six
      features (five compliance types) is off whatever the settings. */
  lemma LookupsIgnoreCase(c: Config, name: string)
    ensures IsFeatureEnabled(c, name) == IsFeatureEnabled(c, ToUpper(name))
    ensures IsComplianceRequired(c, name) == IsComplianceRequired(c, ToUpper(name))
    ensures ToLower(name) !in FeatureNames ==> !IsFeatureEnabled(c, name)
    ensures ToLower(name) !in ComplianceTypes ==> !IsComplianceRequired(c, name)
  {
    FoldForgetsOtherCase(name);
  }

  /** With the defaults every named feature and every compliance type is on. */
  lemma DefaultsEnableAll(name: string)
    ensures IsFeatureEnabled(Defaults(), name) <==> ToLower(name) in FeatureNames
    ensures IsComplianceRequired(Defaults(), name) <==> ToLower(name) in ComplianceTypes
  {
  }

  /** With the default list only "password" and "ssn" are sensitive, in any
      case: "accountNumber" and "cardNumber" hold an upper-case letter, which a
      lower-cased name never does. */
  lemma DefaultSensitiveFields(fieldName: string)
    ensures IsSensitiveField(Defaults(), fieldName) <==> ToLower(fieldName) in {"password", "ssn"}
  {
    DefaultSensitiveList(Defaults().audit.sensitiveFields, fieldName);
  }

  /** The default sensitive list, met by a lower-cased name. */
  lemma DefaultSensitiveList(fields: seq<string>, fieldName: string)
    requires fields == ["password", "ssn", "accountNumber", "cardNumber"]
    ensures ToLower(fieldName) in fields <==> ToLower(fieldName) in {"password", "ssn"}
  {
    ToLowerNeverEqualsUpperCased(fieldName, "accountNumber", 7);
    ToLowerNeverEqualsUpperCased(fieldName, "cardNumber", 4);
  }

  /** Country lookups ignore case, and the empty code is both restricted and
      watchlisted by default. */
  lemma CountryLookups(c: Config, code: string)
    ensures IsRestrictedCountry(c, code) == IsRestrictedCountry(c, ToLower(code))
    ensures IsWatchlistCountry(c, code) == IsWatchlistCountry(c, ToLower(code))
    ensures IsRestrictedCountry(Defaults(), "") && IsWatchlistCountry(Defaults(), "")
    ensures IsRestrictedCountry(Defaults(), "af") && IsWatchlistCountry(Defaults(), "kp")
    ensures !IsWatchlistCountry(Defaults(), "af")
  {
    FoldForgetsOtherCase(code);
    DefaultCountryLists(Defaults().compliance.restrictedCountries, Defaults().compliance.watchlistCountries);
  }

  /** The default restricted and watchlist codes, met by upper-cased codes. */
  lemma DefaultCountryLists(restricted: seq<string>, watchlist: seq<string>)
    requires restricted == ["", "AF", "BY", "MM", "ZW"] && watchlist == ["", "IR", "KP", "SY"]
    ensures ToUpper("") in restricted && ToUpper("") in watchlist
    ensures ToUpper("af") in restricted && ToUpper("kp") in watchlist
    ensures ToUpper("af") !in watchlist
  {
    assert ToUpper("") == "";
    assert ToUpper("af") == "AF";
    assert ToUpper("kp") == "KP";
  }
}
