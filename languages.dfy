/**
 * The two translation tables, English and Turkish, as trees: an inner node
 * is an object of named entries and a leaf is a string.
 */
module Languages {

  datatype Node = Leaf(text: string) | Branch(children: map<string, Node>)

  /** The English table. */
  const En: Node := Branch(map[
    "navigation" := Branch(map[
      "employees" := Leaf("Employee List"),
      "addNew" := Leaf("Add New Employee")
    ]),
    "employees" := Branch(map[
      "title" := Leaf("Employee List"),
      "searchPlaceholder" := Leaf("Search employees..."),
      "addEmployee" := Leaf("Add Employee"),
      "editEmployee" := Leaf("Edit Employee"),
      "deleteEmployee" := Leaf("Delete Employee"),
      "confirmDelete" := Leaf("Are you sure you want to delete this employee?"),
      "noEmployees" := Leaf("No employees found"),
      "viewModeList" := Leaf("List View"),
      "viewModeTable" := Leaf("Table View")
    ]),
    "employeeForm" := Branch(map[
      "firstName" := Leaf("First Name"),
      "lastName" := Leaf("Last Name"),
      "dateOfEmployment" := Leaf("Date of Employment"),
      "dateOfBirth" := Leaf("Date of Birth"),
      "phoneNumber" := Leaf("Phone Number"),
      "emailAddress" := Leaf("Email Address"),
      "department" := Leaf("Department"),
      "position" := Leaf("Position"),
      "save" := Leaf("Save"),
      "cancel" := Leaf("Cancel"),
      "update" := Leaf("Update"),
      "confirmUpdate" := Leaf("Are you sure you want to update this employee?")
    ]),
    "departments" := Branch(map[
      "analytics" := Leaf("Analytics"),
      "tech" := Leaf("Tech")
    ]),
    "positions" := Branch(map[
      "junior" := Leaf("Junior"),
      "medior" := Leaf("Medior"),
      "senior" := Leaf("Senior")
    ]),
    "validation" := Branch(map[
      "required" := Leaf("This field is required"),
      "invalidEmail" := Leaf("Please enter a valid email address"),
      "invalidPhone" := Leaf("Please enter a valid phone number"),
      "invalidDate" := Leaf("Please enter a valid date"),
      "duplicateEmail" := Leaf("This email address is already in use")
    ]),
    "common" := Branch(map[
      "yes" := Leaf("Yes"),
      "no" := Leaf("No"),
      "ok" := Leaf("OK"),
      "cancel" := Leaf("Cancel"),
      "save" := Leaf("Save"),
      "edit" := Leaf("Edit"),
      "delete" := Leaf("Delete"),
      "search" := Leaf("Search"),
      "loading" := Leaf("Loading..."),
      "error" := Leaf("An error occurred"),
      "success" := Leaf("Operation completed successfully")
    ])
  ])

  /** The Turkish table, with the same sections and keys. */
  const Tr: Node := Branch(map[
    "navigation" := Branch(map[
      "employees" := Leaf("Çalışanlar"),
      "addNew" := Leaf("Yeni Ekle")
    ]),
    "employees" := Branch(map[
      "title" := Leaf("Çalışan Listesi"),
      "searchPlaceholder" := Leaf("Çalışan ara..."),
      "addEmployee" := Leaf("Çalışan Ekle"),
      "editEmployee" := Leaf("Çalışanı Düzenle"),
      "deleteEmployee" := Leaf("Çalışanı Sil"),
      "confirmDelete" := Leaf("Bu çalışanı silmek istediğinizden emin misiniz?"),
      "noEmployees" := Leaf("Çalışan bulunamadı"),
      "viewModeList" := Leaf("Liste Görünümü"),
      "viewModeTable" := Leaf("Tablo Görünümü")
    ]),
    "employeeForm" := Branch(map[
      "firstName" := Leaf("Ad"),
      "lastName" := Leaf("Soyad"),
      "dateOfEmployment" := Leaf("İşe Başlama Tarihi"),
      "dateOfBirth" := Leaf("Doğum Tarihi"),
      "phoneNumber" := Leaf("Telefon Numarası"),
      "emailAddress" := Leaf("E-posta Adresi"),
      "department" := Leaf("Departman"),
      "position" := Leaf("Pozisyon"),
      "save" := Leaf("Kaydet"),
      "cancel" := Leaf("İptal"),
      "update" := Leaf("Güncelle"),
      "confirmUpdate" := Leaf("Bu çalışanı güncellemek istediğinizden emin misiniz?")
    ]),
    "departments" := Branch(map[
      "analytics" := Leaf("Analitik"),
      "tech" := Leaf("Teknoloji")
    ]),
    "positions" := Branch(map[
      "junior" := Leaf("Junior"),
      "medior" := Leaf("Orta Seviye"),
      "senior" := Leaf("Kıdemli")
    ]),
    "validation" := Branch(map[
      "required" := Leaf("Bu alan zorunludur"),
      "invalidEmail" := Leaf("Lütfen geçerli bir e-posta adresi girin"),
      "invalidPhone" := Leaf("Lütfen geçerli bir telefon numarası girin"),
      "invalidDate" := Leaf("Lütfen geçerli bir tarih girin"),
      "duplicateEmail" := Leaf("Bu e-posta adresi zaten kullanılıyor")
    ]),
    "common" := Branch(map[
      "yes" := Leaf("Evet"),
      "no" := Leaf("Hayır"),
      "ok" := Leaf("Tamam"),
      "cancel" := Leaf("İptal"),
      "save" := Leaf("Kaydet"),
      "edit" := Leaf("Düzenle"),
      "delete" := Leaf("Sil"),
      "search" := Leaf("Ara"),
      "loading" := Leaf("Yükleniyor..."),
      "error" := Leaf("Bir hata oluştu"),
      "success" := Leaf("İşlem başarıyla tamamlandı")
    ])
  ])

  /** `this.languages`: the supported codes and their tables. */
  const Tables: map<string, Node> := map["en" := En, "tr" := Tr]

  /** The supported codes in declaration order (`Object.keys(this.languages)`). */
  const Codes: seq<string> := ["en", "tr"]

  /** The name of each language, in each language (`getLanguageName`). */
  const LanguageNames: map<string, map<string, string>> := map[
    "en" := map["en" := "English", "tr" := "Turkish"],
    "tr" := map["en" := "\U{0130}ngilizce", "tr" := "T\U{00FC}rk\U{00E7}e"]
  ]
}
