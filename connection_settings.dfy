/**
 * The Apps Script connection settings (src/content/configuration-modal.js), kept in the
 * page's `localStorage`: the web app URL, the "connected" flag under its current and its
 * older '@'-prefixed name, and the scraper's backup entries.
 */
module ConnectionSettings {
  import opened SeqUtil
  import opened JsText

  const UrlKey := "latka-apps-script-url"
  const ConnectedKey := "latka-apps-script-connected"
  const OldConnectedKey := "@latka-apps-script-connected"
  const BackupPrefix := "latka_backup_"

  type LocalStorage = map<string, string>

  /** `localStorage.getItem(key)`: the stored string, or nothing (`null`). */
  function GetItem(m: LocalStorage, key: string): Option<string> {
    if key in m then Some(m[key]) else None
  }

  /** `getAppsScriptConnected`: either name of the flag holds exactly 'true'. */
  predicate Connected(m: LocalStorage) {
    GetItem(m, ConnectedKey) == Some("true") || GetItem(m, OldConnectedKey) == Some("true")
  }

  /** `migrateLocalStorageKeys`: a non-empty old flag moves to the current name. */
  function Migrated(m: LocalStorage): LocalStorage {
    if OldConnectedKey in m && m[OldConnectedKey] != "" then
      m[ConnectedKey := m[OldConnectedKey]] - {OldConnectedKey}
    else m
  }

  /** `initializeConnectionStatus`: after migrating, a stored URL marks the connection as made. */
  function Initialized(m: LocalStorage): LocalStorage {
    var m1 := Migrated(m);
    if UrlKey in m1 && m1[UrlKey] != "" && !Connected(m1) then m1[ConnectedKey := "true"] else m1
  }

  predicate IsBackupKey(k: string) {
    StartsWith(k, BackupPrefix)
  }

  /** `clearBackupData`. */
  function WithoutBackups(m: LocalStorage): LocalStorage {
    map k | k in m && !IsBackupKey(k) :: m[k]
  }

  /** `isValidAppsScriptUrl`. */
  predicate IsValidAppsScriptUrl(url: string) {
    Includes(url, "script.google.com/macros/s/") && Includes(url, "/exec")
  }

  /** Whether `saveSheetsConfig` gets past its checks: enabled, and a non-empty valid URL. */
  predicate SaveAccepted(input: string, saveDisabled: bool) {
    !saveDisabled && Trim(input) != "" && IsValidAppsScriptUrl(Trim(input))
  }

  /**
   * `saveSheetsConfig`: nothing while the save button is disabled or when the trimmed input
   * is empty or not an Apps Script URL; otherwise it stores the trimmed URL and the flag
   * 'true', and the UI refresh that follows runs `initializeConnectionStatus`.
   */
  function SavedConfig(m: LocalStorage, input: string, saveDisabled: bool): LocalStorage {
    if saveDisabled then m
    else
      var url := Trim(input);
      if url == "" || !IsValidAppsScriptUrl(url) then m
      else Initialized(m[UrlKey := url][ConnectedKey := "true"])
  }

  /**
   * `disableSheetsConnection`: removes the URL, sets the flag to 'false', and the UI refresh
   * that follows runs `initializeConnectionStatus`.
   */
  function Disconnected(m: LocalStorage): LocalStorage {
    Initialized((m - {UrlKey})[ConnectedKey := "false"])
  }

  /**
   * Migration leaves no old flag behind, keeps the connection state when the old flag was
   * absent or empty, takes the old flag's value otherwise, and touches no other key.
   */
  lemma MigratedSpec(m: LocalStorage)
    ensures OldConnectedKey !in Migrated(m) || Migrated(m)[OldConnectedKey] == ""
    ensures GetItem(m, OldConnectedKey) in {None, Some("")} ==> Migrated(m) == m
    ensures GetItem(m, OldConnectedKey) !in {None, Some("")} ==>
              (Connected(Migrated(m)) <==> m[OldConnectedKey] == "true")
    ensures forall k | k != ConnectedKey && k != OldConnectedKey :: GetItem(Migrated(m), k) == GetItem(m, k)
  {
  }

  /** Migrating a second time changes nothing. */
  lemma MigrateTwice(m: LocalStorage)
    ensures Migrated(Migrated(m)) == Migrated(m)
  {
  }

  /**
   * After initialisation a stored non-empty URL means connected; the URL itself is never
   * changed, and without one initialisation is just the migration.
   */
  lemma InitializedSpec(m: LocalStorage)
    ensures GetItem(Initialized(m), UrlKey) == GetItem(m, UrlKey)
    ensures GetItem(m, UrlKey).Some? && m[UrlKey] != "" ==> Connected(Initialized(m))
    ensures GetItem(m, UrlKey) in {None, Some("")} ==> Initialized(m) == Migrated(m)
    ensures Connected(Migrated(m)) ==> Initialized(m) == Migrated(m)
  {
  }

  /** Clearing backups removes exactly the keys starting with `latka_backup_`. */
  lemma WithoutBackupsSpec(m: LocalStorage)
    ensures forall k :: k in WithoutBackups(m) <==> k in m && !IsBackupKey(k)
    ensures forall k | k in WithoutBackups(m) :: WithoutBackups(m)[k] == m[k]
  {
  }

  /**
   * A save that passes its checks stores the trimmed, valid URL, reads as connected and
   * leaves no non-empty old flag; one that does not changes nothing. No other key changes.
   */
  lemma SavedConfigSpec(m: LocalStorage, input: string, saveDisabled: bool)
    ensures var m' := SavedConfig(m, input, saveDisabled);
      && (!SaveAccepted(input, saveDisabled) ==> m' == m)
      && (SaveAccepted(input, saveDisabled) ==>
            && GetItem(m', UrlKey) == Some(Trim(input))
            && Trim(Trim(input)) == Trim(input)
            && Connected(m')
            && GetItem(m', OldConnectedKey) in {None, Some("")})
      && forall k | k != UrlKey && k != ConnectedKey && k != OldConnectedKey :: GetItem(m', k) == GetItem(m, k)
  {
    TrimIdempotent(input);
  }

  /**
   * Disconnecting removes the URL and leaves no non-empty old flag; the connection still
   * reads as made exactly when the old '@' flag held 'true', which the refresh moves to the
   * current name. No other key changes.
   */
  lemma DisconnectedSpec(m: LocalStorage)
    ensures UrlKey !in Disconnected(m)
    ensures GetItem(Disconnected(m), OldConnectedKey) in {None, Some("")}
    ensures Connected(Disconnected(m)) <==> GetItem(m, OldConnectedKey) == Some("true")
    ensures GetItem(m, OldConnectedKey) in {None, Some("")} ==> Disconnected(m)[ConnectedKey] == "false"
    ensures !Connected(Disconnected(Migrated(m)))
    ensures forall k | k != UrlKey && k != ConnectedKey && k != OldConnectedKey ::
              GetItem(Disconnected(m), k) == GetItem(m, k)
  {
  }

  /** Disconnecting after a save that went through always reads as disconnected. */
  lemma SaveThenDisconnect(m: LocalStorage, input: string, saveDisabled: bool)
    requires SaveAccepted(input, saveDisabled)
    ensures !Connected(Disconnected(SavedConfig(m, input, saveDisabled)))
  {
    SavedConfigSpec(m, input, saveDisabled);
  }

  /** The settings as the configuration modal reads and writes them. */
  class Settings {
    var storage: LocalStorage

    constructor (initial: LocalStorage)
      ensures storage == initial
    {
      storage := initial;
    }

    /** `getAppsScriptConnected`. */
    method GetAppsScriptConnected() returns (connected: bool)
      ensures connected == Connected(storage)
    {
      var standardKey := GetItem(storage, ConnectedKey);
      var altKey := GetItem(storage, OldConnectedKey);
      connected := standardKey == Some("true") || altKey == Some("true");
    }

    /** `migrateLocalStorageKeys`. */
    method MigrateLocalStorageKeys()
      modifies this
      ensures storage == Migrated(old(storage))
    {
      if OldConnectedKey in storage && storage[OldConnectedKey] != "" {
        storage := storage[ConnectedKey := storage[OldConnectedKey]];
        storage := storage - {OldConnectedKey};
      }
    }

    /** `initializeConnectionStatus`. */
    method InitializeConnectionStatus()
      modifies this
      ensures storage == Initialized(old(storage))
    {
      MigrateLocalStorageKeys();
      var url := GetItem(storage, UrlKey);
      var isConnected := GetAppsScriptConnected();
      if url.Some? && url.value != "" && !isConnected {
        storage := storage[ConnectedKey := "true"];
      }
    }

    /** `clearBackupData`: the loop over the stored keys. */
    method ClearBackupData()
      modifies this
      ensures storage == WithoutBackups(old(storage))
    {
      var keys := storage.Keys;
      ghost var done: set<string> := {};
      while keys != {}
        invariant keys + done == old(storage).Keys && keys !! done
        invariant storage == map k | k in old(storage) && !(k in done && IsBackupKey(k)) :: old(storage)[k]
        decreases keys
      {
        var key :| key in keys;
        if StartsWith(key, BackupPrefix) {
          storage := storage - {key};
        }
        keys := keys - {key};
        done := done + {key};
      }
    }

    /** `saveSheetsConfig` with the storage work of its UI refresh; reports whether it saved. */
    method SaveSheetsConfig(input: string, saveDisabled: bool) returns (saved: bool)
      modifies this
      ensures storage == SavedConfig(old(storage), input, saveDisabled)
      ensures saved <==> SaveAccepted(input, saveDisabled)
    {
      if saveDisabled {
        return false;
      }
      var appsScriptUrl := Trim(input);
      if appsScriptUrl == "" || !IsValidAppsScriptUrl(appsScriptUrl) {
        return false;
      }
      storage := storage[UrlKey := appsScriptUrl];
      storage := storage[ConnectedKey := "true"];
      InitializeConnectionStatus();
      return true;
    }

    /** `disableSheetsConnection` with the storage work of its UI refresh. */
    method DisableSheetsConnection()
      modifies this
      ensures storage == Disconnected(old(storage))
    {
      storage := storage - {UrlKey};
      storage := storage[ConnectedKey := "false"];
      InitializeConnectionStatus();
    }
  }
}
