/** The constants of `models/models.go` that the core uses. */
module Models {
  import opened Text

  /** `ConfigFileName`: where the SFTP credentials are saved, relative to the home directory. */
  const ConfigFileName: string := ".filemanager/sftp_config.json"

  /** `DownloadDir`: the root of the download tree, relative to the home directory. */
  const DownloadDir: string := ".filemanager" + "/" + "downloads"

  /** `UnsupportedExtensions`: extensions the preview refuses to open, one display per source line. */
  const UnsupportedExtensions: seq<string> :=
    [".exe", ".dll", ".so", ".a", ".lib", ".o", ".obj"] +
    [".jpg", ".jpeg", ".png", ".gif", ".bmp", ".tiff", ".svg"] +
    [".mp3", ".wav", ".ogg", ".flac", ".aac"] +
    [".mp4", ".avi", ".mov", ".mkv", ".flv", ".wmv"] +
    [".pdf", ".doc", ".docx", ".xls", ".xlsx", ".ppt", ".pptx"] +
    [".rar", ".7z", ".tar", ".gz", ".bz2", ".xz"] +
    [".iso", ".dmg", ".img"] +
    [".db", ".sqlite", ".mdb", ".accdb"] +
    [".torrent", ".ttf"]

  /** The SFTP credentials (`models.SFTPConfig`). */
  datatype Credentials = Credentials(host: string, user: string, password: string)
}
